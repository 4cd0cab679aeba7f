/** Registration of student accounts: the ordered duplicate checks and the
    defaults of a new user. */
module AuthServices {
  import opened Base
  import opened Accounts

  /** A registration form (`RegisterRequest`); the student id is required
      here. */
  datatype RegisterRequest = RegisterRequest(
    name: string,
    email: string,
    password: string,
    studentId: string,
    course: string,
    year: Option<int>)

  const EmailTaken: string := "Email already registered"
  const StudentIdTaken: string := "Student ID already registered"
  const StudentRoleMissing: string := "Student role not found"
  const RegistrationDone: string := "Registration successful! Please login."

  class AuthService {
    /** The user table, keyed by id. */
    var users: map<Id, User>
    /** The role table, keyed by the unique role name. */
    var roles: map<string, Role>
    /** The identity counter of the user table. */
    var nextUserId: Id

    /** Users are stored under their own ids, below the next id, and roles
        under their names. */
    ghost predicate Keyed()
      reads this, users.Values, roles.Values
    {
      (forall id :: id in users ==> users[id].id == id && id < nextUserId) &&
      (forall n :: n in roles ==> roles[n].name == n)
    }

    /** No two users share an e-mail address, and no two users share a
        student id. */
    ghost predicate Unique()
      reads this, users.Values
    {
      (forall a, b :: a in users && b in users && users[a].email == users[b].email ==> a == b) &&
      (forall a, b ::
         (a in users && b in users && users[a].studentId.Some? &&
          users[a].studentId == users[b].studentId) ==> a == b)
    }

    ghost predicate Valid()
      reads this, users.Values, roles.Values
    {
      Keyed() && Unique()
    }

    constructor (roles: map<string, Role>)
      requires forall n :: n in roles ==> roles[n].name == n
      ensures Valid() && users == map[] && this.roles == roles
    {
      users := map[];
      this.roles := roles;
      nextUserId := 1;
    }

    /** `existsByEmail`. */
    predicate EmailRegistered(email: string)
      reads this, users.Values
    {
      exists id :: id in users && users[id].email == email
    }

    /** `existsByStudentId`. */
    predicate StudentIdRegistered(studentId: string)
      reads this, users.Values
    {
      exists id :: id in users && users[id].studentId == Some(studentId)
    }

    /** The first of `register`'s checks that fails: a taken e-mail, then a
        taken student id, then a missing STUDENT role; all are bad requests. */
    function Rejection(request: RegisterRequest): (r: Option<Error>)
      reads this, users.Values
      ensures EmailRegistered(request.email) ==> r == Some(BadRequest(EmailTaken))
      ensures !EmailRegistered(request.email) && StudentIdRegistered(request.studentId) ==>
                r == Some(BadRequest(StudentIdTaken))
      ensures !EmailRegistered(request.email) && !StudentIdRegistered(request.studentId) ==>
                (r.None? <==> StudentRoleName in roles)
      ensures r.Some? ==> r.value.BadRequest?
    {
      if EmailRegistered(request.email) then Some(BadRequest(EmailTaken))
      else if StudentIdRegistered(request.studentId) then Some(BadRequest(StudentIdTaken))
      else if StudentRoleName !in roles then Some(BadRequest(StudentRoleMissing))
      else None
    }

    /** `register`: after the checks, one new active student whose e-mail is
        not verified and whose password is stored encoded. Nothing is stored
        on a rejection, and the two uniqueness rules keep holding. */
    method Register(request: RegisterRequest, encode: string -> string) returns (r: Result<string>)
      requires Valid()
      modifies this`users, this`nextUserId
      ensures Valid()
      ensures r.Failure? <==> old(Rejection(request)).Some?
      ensures r.Failure? ==> r.error == old(Rejection(request)).value && users == old(users)
      ensures r.Success? ==>
                r.value == RegistrationDone &&
                var id := old(nextUserId);
                id !in old(users) && users.Keys == old(users.Keys) + {id} &&
                (forall k :: k in old(users) ==> users[k] == old(users[k])) &&
                fresh(users[id]) && NewStudent(users[id], request, encode)
    {
      var rejection := Rejection(request);
      if rejection.Some? {
        return Failure(rejection.value);
      }
      var user := new User(nextUserId, request.name, request.email, encode(request.password),
                           Some(request.studentId), request.course, request.year,
                           Some(roles[StudentRoleName]));
      users := users[nextUserId := user];
      nextUserId := nextUserId + 1;
      r := Success(RegistrationDone);
    }

    /** The user `register` builds from the form. */
    ghost predicate NewStudent(user: User, request: RegisterRequest, encode: string -> string)
      reads this, user, roles.Values
    {
      user.name == request.name && user.email == request.email &&
      user.password == encode(request.password) && user.studentId == Some(request.studentId) &&
      user.course == request.course && user.year == request.year &&
      StudentRoleName in roles && user.role == Some(roles[StudentRoleName]) &&
      roles[StudentRoleName].IsStudentRole() &&
      user.isActive && !user.isEmailVerified
    }
  }
}
