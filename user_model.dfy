/** The user table the auth and user handlers read and write. Its schema
    file is not part of this model; the fields are the ones the handlers
    use: id, email, passwordHash, role, firstName and lastName. */
module UserModel {
  import opened Common

  /** bcrypt reads at most this many units of a password; the rest is
      ignored by both hashing and comparison. */
  const BcryptInputLimit: nat := 72

  /** The part of a password bcrypt actually hashes: its first 72
      characters (bcryptjs counts UTF-8 bytes; see README). */
  function BcryptKey(password: string): (key: string)
    ensures |key| <= BcryptInputLimit
    ensures key <= password
    ensures |password| <= BcryptInputLimit ==> key == password
  {
    if |password| <= BcryptInputLimit then password else password[..BcryptInputLimit]
  }

  /** A bcrypt hash. It keeps the hashed key only so that
      `PasswordMatches` can stand for `bcrypt.compare`; nothing else looks
      inside. The salt stands for bcrypt's random salt. */
  datatype PasswordHash = Bcrypt(salt: nat, key: string)

  /** `bcrypt.hash(password, 10)` with the salt it drew. */
  function HashPassword(password: string, salt: nat): (h: PasswordHash)
    ensures PasswordMatches(password, h)
    ensures forall other :: PasswordMatches(other, h) <==> BcryptKey(other) == BcryptKey(password)
  {
    Bcrypt(salt, BcryptKey(password))
  }

  /** `bcrypt.compare(password, hash)`: the password's key is the one the
      hash was made from. */
  predicate PasswordMatches(password: string, h: PasswordHash)
  {
    BcryptKey(password) == h.key
  }

  /** Comparison ignores everything past the first 72 characters: a
      password that agrees with the registered one up to there is accepted. */
  lemma {:induction false} CompareIgnoresTail(password: string, other: string, salt: nat)
    requires |password| >= BcryptInputLimit && |other| >= BcryptInputLimit
    requires password[..BcryptInputLimit] == other[..BcryptInputLimit]
    ensures PasswordMatches(other, HashPassword(password, salt))
  {
    assert BcryptKey(password) == password[..BcryptInputLimit];
    assert BcryptKey(other) == other[..BcryptInputLimit];
  }

  /** Up to 72 characters, comparison accepts exactly the registered
      password. */
  lemma ShortPasswordsCompareExactly(password: string, other: string, salt: nat)
    requires |password| <= BcryptInputLimit && |other| <= BcryptInputLimit
    ensures PasswordMatches(other, HashPassword(password, salt)) <==> other == password
  {
  }

  datatype User = User(
    id: nat,
    email: string,
    passwordHash: PasswordHash,
    role: string,
    firstName: string,
    lastName: string)

  /** The public fields of a user: everything but the hash. */
  datatype Profile = Profile(id: nat, email: string, firstName: string, lastName: string, role: string)

  function ProfileOf(u: User): Profile
  {
    Profile(u.id, u.email, u.firstName, u.lastName, u.role)
  }

  /** Some user has this email. */
  predicate EmailTaken(users: map<nat, User>, email: string)
  {
    exists id :: id in users && users[id].email == email
  }

  /** No two users share an email. */
  predicate UniqueEmails(users: map<nat, User>)
  {
    forall a, b :: a in users && b in users && users[a].email == users[b].email ==> a == b
  }

  /** Every row is stored under its own id. */
  predicate KeysMatchIds(users: map<nat, User>)
  {
    forall id :: id in users ==> users[id].id == id
  }

  class UserTable {
    /** The Users table by primary key. */
    var users: map<nat, User>
    /** The next autoincrement key. */
    var nextId: nat

    /** Keys match the rows' ids and lie below the autoincrement counter,
        and emails are unique: registration and profile updates both
        refuse an email that is already taken. */
    ghost predicate Valid()
      reads this
    {
      && 1 <= nextId
      && KeysMatchIds(users)
      && (forall id :: id in users ==> 1 <= id < nextId)
      && UniqueEmails(users)
    }

    constructor ()
      ensures Valid() && users == map[] && nextId == 1
    {
      users := map[];
      nextId := 1;
    }
  }
}
