/** apps/auth/src/user/user.service.ts: registration and credential lookup
    over the user collection, with bcrypt as an abstract pair of functions. */
module Users {
  import opened Common
  import opened Database

  /** A user document: the email and the stored bcrypt digest. */
  datatype User = User(email: string, password: string)

  datatype CreateUserDto = CreateUserDto(email: string, password: string)

  /** The random salt `hashSync` draws. */
  type Salt = nat

  const SaltRounds: nat := 10
  const InvalidCredentials := "Invalid credentials"

  /** `bcrypt.hashSync(password, rounds)` (with its salt made an input) and
      `bcrypt.compareSync(password, digest)`. */
  datatype Bcrypt = Bcrypt(hashSync: (string, nat, Salt) -> string, compareSync: (string, string) -> bool)

  /** The one property of bcrypt the service relies on: a digest verifies
      against the password it was made from. */
  ghost predicate Sound(bcrypt: Bcrypt)
  {
    forall password, rounds, salt :: bcrypt.compareSync(password, bcrypt.hashSync(password, rounds, salt))
  }

  /** At most one user per email, by exact string equality. */
  ghost predicate UniqueEmails(docs: seq<Record<User>>)
  {
    forall i, j :: 0 <= i < j < |docs| ==> docs[i].body.email != docs[j].body.email
  }

  /** The filter `{ email }`. */
  function ByEmail(email: string): (f: Record<User> -> bool)
    ensures forall d: Record<User> :: f(d) <==> d.body.email == email
  {
    (d: Record<User>) => d.body.email == email
  }

  const AlreadyExistsPrefix := "User with email "

  /** The registration error: UnprocessableEntity quoting the email right
      after its fixed prefix. */
  function AlreadyExists(email: string): (e: Exception)
    ensures e.UnprocessableEntity?
    ensures |e.message| >= |AlreadyExistsPrefix| + |email|
    ensures e.message[..|AlreadyExistsPrefix|] == AlreadyExistsPrefix
    ensures e.message[|AlreadyExistsPrefix|..][..|email|] == email
  {
    UnprocessableEntity(AlreadyExistsPrefix + email + " already exists")
  }

  /** A fresh email added to an email-unique store keeps it email-unique. */
  lemma AppendKeepsUniqueEmails(docs: seq<Record<User>>, doc: Record<User>)
    requires UniqueEmails(docs)
    requires forall k :: 0 <= k < |docs| ==> docs[k].body.email != doc.body.email
    ensures UniqueEmails(docs + [doc])
  {
  }

  /** In an email-unique store, the first record with an email is the only one. */
  lemma FirstByEmailIsTheOne(docs: seq<Record<User>>, k: nat, email: string)
    requires UniqueEmails(docs) && k < |docs| && docs[k].body.email == email
    ensures FirstMatch(docs, ByEmail(email)) == Some(k)
  {
  }

  class UserService {
    const users: AbstractRepository<User>
    const bcrypt: Bcrypt

    ghost predicate Valid()
      reads users
    {
      users.Valid() && Sound(bcrypt)
    }

    constructor (users: AbstractRepository<User>, bcrypt: Bcrypt)
      requires users.Valid() && Sound(bcrypt)
      ensures this.users == users && this.bcrypt == bcrypt
      ensures Valid()
    {
      this.users := users;
      this.bcrypt := bcrypt;
    }

    /** `validateCreateUserDto`: any failure of the lookup means the email is
      free; a found user means it is taken. */
    function ValidateCreateUserDto(dto: CreateUserDto): (r: Result<(), Exception>)
      reads users
      ensures r.Ok? <==> forall k :: 0 <= k < |users.docs| ==> users.docs[k].body.email != dto.email
      ensures r.Err? ==> r.error == AlreadyExists(dto.email)
    {
      match users.FindOne(ByEmail(dto.email))
      case Err(_) => Ok(())
      case Ok(_) => Err(AlreadyExists(dto.email))
    }

    /** `create`: refuses a taken email, otherwise stores the email with the
      password's digest, never the password itself. */
    method Create(dto: CreateUserDto, salt: Salt) returns (r: Result<Record<User>, Exception>)
      requires Valid()
      modifies users
      ensures Valid()
      ensures (exists k :: 0 <= k < |old(users.docs)| && old(users.docs)[k].body.email == dto.email) ==>
        r == Err(AlreadyExists(dto.email)) && users.docs == old(users.docs)
      ensures (forall k :: 0 <= k < |old(users.docs)| ==> old(users.docs)[k].body.email != dto.email) ==>
        && r.Ok?
        && r.value.body == User(dto.email, bcrypt.hashSync(dto.password, SaltRounds, salt))
        && (forall k :: 0 <= k < |old(users.docs)| ==> old(users.docs)[k].id != r.value.id)
        && users.docs == old(users.docs) + [r.value]
      ensures r.Ok? ==> bcrypt.compareSync(dto.password, r.value.body.password)
      ensures UniqueEmails(old(users.docs)) ==> UniqueEmails(users.docs)
      ensures r.Ok? && UniqueEmails(old(users.docs)) ==> VerifyUser(dto.email, dto.password) == Ok(r.value)
    {
      var valid := ValidateCreateUserDto(dto);
      if valid.Err? {
        return Err(valid.error);
      }
      ghost var before := users.docs;
      var hashed := bcrypt.hashSync(dto.password, SaltRounds, salt);
      var doc := users.Create(User(dto.email, hashed));
      r := Ok(doc);
      if UniqueEmails(before) {
        AppendKeepsUniqueEmails(before, doc);
        FirstByEmailIsTheOne(users.docs, |before|, dto.email);
      }
    }

    /** `getUser`: the user with the given hex id, or NotFound. */
    function GetUser(id: string): (r: Result<Record<User>, Exception>)
      reads users
      ensures r.Ok? ==> r.value in users.docs && ToHexString(r.value.id) == id
      ensures r.Err? <==> forall k :: 0 <= k < |users.docs| ==> ToHexString(users.docs[k].id) != id
      ensures r.Err? ==> r.error == NotFound(NotFoundMessage)
    {
      users.FindOne(ById(id))
    }

    /** `verifyUser`: the user with that email when the password verifies
      against the stored digest; NotFound passes through for an unknown
      email, and a wrong password is Unauthorized. */
    function VerifyUser(email: string, password: string): (r: Result<Record<User>, Exception>)
      reads users
      ensures r.Ok? ==> r.value in users.docs && r.value.body.email == email
      ensures r.Ok? ==> bcrypt.compareSync(password, r.value.body.password)
      ensures (forall k :: 0 <= k < |users.docs| ==> users.docs[k].body.email != email) <==>
        r == Err(NotFound(NotFoundMessage))
      ensures r.Err? ==> r.error in {NotFound(NotFoundMessage), Unauthorized(InvalidCredentials)}
      ensures forall k :: 0 <= k < |users.docs| && users.docs[k].body.email == email && UniqueEmails(users.docs) ==>
        (r.Ok? <==> bcrypt.compareSync(password, users.docs[k].body.password))
    {
      match users.FindOne(ByEmail(email))
      case Err(e) => Err(e)
      case Ok(user) =>
        if bcrypt.compareSync(password, user.body.password) then Ok(user)
        else Err(Unauthorized(InvalidCredentials))
    }
  }
}
