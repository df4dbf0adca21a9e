/** `getMe`, `getReporters`, `updateMe` and `deleteMe` of
    backend/src/controllers/userController.js. The two queries are
    functions of the tables; the two writes are methods on the user table.
    Every handler acts on the caller's own id from the token. */
module UserController {
  import opened Common
  import opened UserModel
  import opened ReportModel

  /** `getMe`: 404 when the caller's id is not in the table, otherwise
      that user's id, email, names and role (never the hash). */
  function GetMe(users: map<nat, User>, callerId: nat): (resp: Response<Profile>)
    requires KeysMatchIds(users)
    ensures resp.Success? <==> callerId in users
    ensures resp.Failure? ==> resp == Failure(404, "User not found")
    ensures resp.Success? ==>
      var u := users[callerId];
      resp.code == 200 && resp.body.id == callerId && resp.body.email == u.email
      && resp.body.firstName == u.firstName && resp.body.lastName == u.lastName && resp.body.role == u.role
  {
    if callerId !in users then Failure(404, "User not found")
    else Success(200, ProfileOf(users[callerId]))
  }

  // ---------------------------------------------------------------------
  // getReporters

  /** One entry of the reporters list. */
  datatype Reporter = Reporter(id: nat, firstName: string, lastName: string)

  function ReporterOf(u: User): Reporter
  {
    Reporter(u.id, u.firstName, u.lastName)
  }

  /** Some report in the table is owned by `userId`. */
  predicate HasReport(reports: map<nat, Report>, userId: nat)
  {
    exists rid :: rid in reports && reports[rid].userId == userId
  }

  /** Code-point lexicographic order on strings: the order the list is
      sorted by. */
  predicate StrLe(a: string, b: string)
  {
    if a == [] then true
    else if b == [] then false
    else if a[0] != b[0] then a[0] < b[0]
    else StrLe(a[1..], b[1..])
  }

  /** Any two strings are ordered one way or the other. */
  lemma {:induction false} StrLeTotal(a: string, b: string)
    ensures StrLe(a, b) || StrLe(b, a)
  {
    if a != [] && b != [] && a[0] == b[0] {
      StrLeTotal(a[1..], b[1..]);
    }
  }

  predicate SortedByFirstName(s: seq<Reporter>)
  {
    forall i, j :: 0 <= i < j < |s| ==> StrLe(s[i].firstName, s[j].firstName)
  }

  predicate DistinctIds(s: seq<Reporter>)
  {
    forall i, j :: 0 <= i < j < |s| ==> s[i].id != s[j].id
  }

  /** Puts `x` into a list sorted by first name, before the first entry
      that does not sort ahead of it. */
  function InsertByFirstName(x: Reporter, s: seq<Reporter>): (r: seq<Reporter>)
    ensures |r| == |s| + 1
    ensures forall y :: y in r <==> y == x || y in s
  {
    if s == [] || StrLe(x.firstName, s[0].firstName) then [x] + s
    else [s[0]] + InsertByFirstName(x, s[1..])
  }

  /** A sorted list stays sorted when an entry that sorts no later than
      all of it goes in front. */
  lemma ConsSorted(a: Reporter, t: seq<Reporter>)
    requires SortedByFirstName(t)
    requires forall y :: y in t ==> StrLe(a.firstName, y.firstName)
    ensures SortedByFirstName([a] + t)
  {
    var r := [a] + t;
    forall i, j | 0 <= i < j < |r|
      ensures StrLe(r[i].firstName, r[j].firstName)
    {
      assert r[j] == t[j - 1];
      if i > 0 {
        assert r[i] == t[i - 1];
      }
    }
  }

  /** Inserting keeps a list sorted by first name. */
  lemma {:induction false} InsertKeepsSorted(x: Reporter, s: seq<Reporter>)
    requires SortedByFirstName(s)
    ensures SortedByFirstName(InsertByFirstName(x, s))
  {
    if s == [] || StrLe(x.firstName, s[0].firstName) {
      forall y | y in s
        ensures StrLe(x.firstName, y.firstName)
      {
        var k :| 0 <= k < |s| && s[k] == y;
        if k > 0 {
          StrLeTrans(x.firstName, s[0].firstName, y.firstName);
        }
      }
      ConsSorted(x, s);
    } else {
      StrLeTotal(x.firstName, s[0].firstName);
      var t := s[1..];
      assert SortedByFirstName(t) by {
        forall i, j | 0 <= i < j < |t|
          ensures StrLe(t[i].firstName, t[j].firstName)
        {
          assert t[i] == s[i + 1] && t[j] == s[j + 1];
        }
      }
      InsertKeepsSorted(x, t);
      var rest := InsertByFirstName(x, t);
      forall y | y in rest
        ensures StrLe(s[0].firstName, y.firstName)
      {
        if y != x {
          var k :| 0 <= k < |t| && t[k] == y;
          assert s[k + 1] == y;
        }
      }
      ConsSorted(s[0], rest);
    }
  }

  /** Inserting an entry whose id is new keeps the ids distinct. */
  lemma {:induction false} InsertKeepsDistinct(x: Reporter, s: seq<Reporter>)
    requires DistinctIds(s)
    requires forall y :: y in s ==> y.id != x.id
    ensures DistinctIds(InsertByFirstName(x, s))
  {
    var r := InsertByFirstName(x, s);
    if s == [] || StrLe(x.firstName, s[0].firstName) {
      forall i, j | 0 <= i < j < |r|
        ensures r[i].id != r[j].id
      {
        assert r[j] == s[j - 1];
        if i > 0 {
          assert r[i] == s[i - 1];
        }
      }
    } else {
      var t := s[1..];
      assert forall y :: y in t ==> y in s;
      assert DistinctIds(t) by {
        forall i, j | 0 <= i < j < |t|
          ensures t[i].id != t[j].id
        {
          assert t[i] == s[i + 1] && t[j] == s[j + 1];
        }
      }
      InsertKeepsDistinct(x, t);
      var rest := InsertByFirstName(x, t);
      forall y | y in rest
        ensures y.id != s[0].id
      {
        if y != x {
          var k :| 0 <= k < |t| && t[k] == y;
          assert s[k + 1] == y;
        }
      }
      forall i, j | 0 <= i < j < |r|
        ensures r[i].id != r[j].id
      {
        assert r[j] == rest[j - 1];
        if i > 0 {
          assert r[i] == rest[i - 1];
        }
      }
    }
  }

  /** The order is transitive. */
  lemma {:induction false} StrLeTrans(a: string, b: string, c: string)
    requires StrLe(a, b) && StrLe(b, c)
    ensures StrLe(a, c)
  {
    if a != [] && b != [] && c != [] && a[0] == b[0] && b[0] == c[0] {
      StrLeTrans(a[1..], b[1..], c[1..]);
    }
  }

  /** Every non-empty set of ids has a least element. */
  lemma {:induction false} LeastIdExists(s: set<nat>)
    requires s != {}
    ensures exists m :: m in s && forall k :: k in s ==> m <= k
  {
    var x :| x in s;
    if s != {x} {
      LeastIdExists(s - {x});
      var m :| m in s - {x} && forall k :: k in s - {x} ==> m <= k;
      var least := if x < m then x else m;
      forall k | k in s
        ensures least <= k
      {
        if k != x {
          assert k in s - {x};
        }
      }
    } else {
      assert forall k :: k in s ==> x <= k;
    }
  }

  /** The users `ids` as a list sorted by first name, each listed once. */
  function SortedReporters(users: map<nat, User>, ids: set<nat>): (r: seq<Reporter>)
    requires ids <= users.Keys
    requires KeysMatchIds(users)
    ensures SortedByFirstName(r) && DistinctIds(r)
    ensures forall y :: y in r <==> y.id in ids && y == ReporterOf(users[y.id])
    decreases ids
  {
    if ids == {} then []
    else
      LeastIdExists(ids);
      var m :| m in ids && forall k :: k in ids ==> m <= k;
      var rest := SortedReporters(users, ids - {m});
      InsertKeepsSorted(ReporterOf(users[m]), rest);
      InsertKeepsDistinct(ReporterOf(users[m]), rest);
      InsertByFirstName(ReporterOf(users[m]), rest)
  }

  /** `getReporters`: the users that own at least one report, each listed
      once, ordered by first name ascending. Reports whose owner is not in
      the user table contribute no one (an inner join). */
  function GetReporters(users: map<nat, User>, reports: map<nat, Report>): (r: seq<Reporter>)
    requires KeysMatchIds(users)
    ensures SortedByFirstName(r)
    ensures DistinctIds(r)
    ensures forall y :: y in r <==> y.id in users && HasReport(reports, y.id) && y == ReporterOf(users[y.id])
  {
    SortedReporters(users, set id | id in users && HasReport(reports, id))
  }

  // ---------------------------------------------------------------------
  // updateMe and deleteMe

  /** The fields of a profile update; an absent field is `None`. */
  datatype ProfileBody = ProfileBody(firstName: Option<string>, lastName: Option<string>, email: Option<string>)

  /** The body asks for an email other than the current one. */
  predicate ChangesEmail(body: ProfileBody, u: User)
  {
    Truthy(body.email) && body.email.value != u.email
  }

  /** The user after a successful update: a given email or name replaces
      the old one, an absent or empty one keeps it; id, role and hash stay. */
  function Updated(u: User, body: ProfileBody): (v: User)
    ensures v.id == u.id && v.role == u.role && v.passwordHash == u.passwordHash
    ensures v.email == (if Truthy(body.email) then body.email.value else u.email)
    ensures v.firstName == (if Truthy(body.firstName) then body.firstName.value else u.firstName)
    ensures v.lastName == (if Truthy(body.lastName) then body.lastName.value else u.lastName)
  {
    u.(email := if Truthy(body.email) then body.email.value else u.email,
       firstName := if Truthy(body.firstName) then body.firstName.value else u.firstName,
       lastName := if Truthy(body.lastName) then body.lastName.value else u.lastName)
  }

  /** Sending the same body again asks for no email change, so it cannot
      be refused as a taken email, and it leaves the user as it was. */
  lemma ResubmitChangesNothing(u: User, body: ProfileBody)
    ensures !ChangesEmail(body, Updated(u, body))
    ensures Updated(Updated(u, body), body) == Updated(u, body)
  {
  }

  /** `updateMe`: 404 when the caller is gone; 400 and nothing saved,
      names included, when a new email belongs to someone else; otherwise
      the caller's row becomes `Updated(...)` and no other row changes. */
  method UpdateMe(db: UserTable, callerId: nat, body: ProfileBody) returns (resp: Response<Profile>)
    requires db.Valid()
    modifies db
    ensures db.Valid() && db.nextId == old(db.nextId)
    ensures callerId !in old(db.users) ==>
      resp == Failure(404, "User not found") && db.users == old(db.users)
    ensures callerId in old(db.users) && ChangesEmail(body, old(db.users)[callerId])
            && EmailTaken(old(db.users), body.email.value) ==>
      resp == Failure(400, "Email already in use") && db.users == old(db.users)
    ensures callerId in old(db.users)
            && !(ChangesEmail(body, old(db.users)[callerId]) && EmailTaken(old(db.users), body.email.value)) ==>
      var v := Updated(old(db.users)[callerId], body);
      db.users == old(db.users)[callerId := v] && resp == Success(200, ProfileOf(v))
  {
    if callerId !in db.users {
      return Failure(404, "User not found");
    }
    var user := db.users[callerId];
    if Truthy(body.email) && body.email.value != user.email {
      if exists id :: id in db.users && db.users[id].email == body.email.value {
        return Failure(400, "Email already in use");
      }
      user := user.(email := body.email.value);
    }
    user := user.(firstName := if Truthy(body.firstName) then body.firstName.value else user.firstName);
    user := user.(lastName := if Truthy(body.lastName) then body.lastName.value else user.lastName);
    db.users := db.users[callerId := user];
    resp := Success(200, ProfileOf(user));
  }

  /** `deleteMe`: removes exactly the caller's row, or 404 when absent.
      The caller's reports are not touched here. */
  method DeleteMe(db: UserTable, callerId: nat) returns (resp: Response<()>)
    requires db.Valid()
    modifies db
    ensures db.Valid() && db.nextId == old(db.nextId)
    ensures callerId !in old(db.users) ==>
      resp == Failure(404, "User not found") && db.users == old(db.users)
    ensures callerId in old(db.users) ==>
      resp == Success(204, ()) && db.users == old(db.users) - {callerId}
  {
    if callerId !in db.users {
      return Failure(404, "User not found");
    }
    db.users := db.users - {callerId};
    resp := Success(204, ());
  }
}
