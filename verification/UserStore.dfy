/** The in-memory user store: a slice scanned from the front and an id counter. */
module UserStore {
  import opened Wrappers

  datatype User = User(id: int, name: string, email: string, passwordHash: string)

  datatype Error = UserNotFound | EmailAlreadyExists

  // ----- the slice as a value -----

  /** The first position whose user satisfies `p`, or the length. */
  function Scan(users: seq<User>, p: User -> bool): (i: nat)
    ensures i <= |users| && (i < |users| ==> p(users[i]))
    ensures forall k :: 0 <= k < i ==> !p(users[k])
  {
    if users == [] || p(users[0]) then 0 else 1 + Scan(users[1..], p)
  }

  function ById(users: seq<User>, id: int): nat {
    Scan(users, (u: User) => u.id == id)
  }

  lemma FoundFirst(users: seq<User>, id: int, i: nat)
    requires i < |users| && users[i].id == id && forall k :: 0 <= k < i ==> users[k].id != id
    ensures ById(users, id) == i
  {
    var p := (u: User) => u.id == id;
    assert p(users[i]);
    assert forall k :: 0 <= k < i ==> !p(users[k]);
  }

  function ByEmail(users: seq<User>, email: string): nat {
    Scan(users, (u: User) => u.email == email)
  }

  function Lookup(users: seq<User>, id: int): Result<User, Error> {
    var i := ById(users, id);
    if i < |users| then Ok(users[i]) else Err(UserNotFound)
  }

  /** Update gives up at the first other holder of the email before the user. */
  function Updated(users: seq<User>, id: int, name: string, email: string): Result<seq<User>, Error> {
    var i := ById(users, id);
    if ByEmail(users, email) < i then Err(EmailAlreadyExists)
    else if i == |users| then Err(UserNotFound)
    else Ok(users[i := users[i].(name := name, email := email)])
  }

  function Deleted(users: seq<User>, id: int): Result<seq<User>, Error> {
    var i := ById(users, id);
    if i < |users| then Ok(users[..i] + users[i + 1..]) else Err(UserNotFound)
  }

  function Rehashed(users: seq<User>, id: int, hash: string): Result<seq<User>, Error> {
    var i := ById(users, id);
    if i < |users| then Ok(users[i := users[i].(passwordHash := hash)]) else Err(UserNotFound)
  }

  /** Ids grow along the slice and stay below the counter. */
  ghost predicate Rep(users: seq<User>, nextID: int) {
    (forall i :: 0 <= i < |users| ==> users[i].id < nextID) &&
    (forall i, j :: 0 <= i < j < |users| ==> users[i].id < users[j].id)
  }

  ghost predicate DistinctEmails(users: seq<User>) {
    forall i, j :: 0 <= i < j < |users| ==> users[i].email != users[j].email
  }

  /** Position `i` is the first that holds the id. */
  ghost predicate FirstAt(users: seq<User>, id: int, i: int) {
    0 <= i < |users| && users[i].id == id && forall k :: 0 <= k < i ==> users[k].id != id
  }

  class MemoryUserStore {
    var users: seq<User>
    var nextID: int

    constructor ()
      ensures users == [] && nextID == 1
    {
      users, nextID := [], 1;
    }

    method GetByID(id: int) returns (r: Result<User, Error>)
      ensures r == Lookup(users, id)
      ensures match r
        case Ok(u) => exists i :: FirstAt(users, id, i) && users[i] == u
        case Err(e) => e == UserNotFound && forall u :: u in users ==> u.id != id
    {
      for i := 0 to |users|
        invariant forall k :: 0 <= k < i ==> users[k].id != id
      {
        if users[i].id == id {
          return Ok(users[i]);
        }
      }
      r := Err(UserNotFound);
    }

    method GetByEmail(email: string) returns (r: Result<User, Error>)
      ensures r == if ByEmail(users, email) < |users| then Ok(users[ByEmail(users, email)]) else Err(UserNotFound)
      ensures match r
        case Ok(u) => u.email == email &&
          exists i :: 0 <= i < |users| && users[i] == u && forall k :: 0 <= k < i ==> users[k].email != email
        case Err(e) => e == UserNotFound && forall u :: u in users ==> u.email != email
    {
      for i := 0 to |users|
        invariant forall k :: 0 <= k < i ==> users[k].email != email
      {
        if users[i].email == email {
          return Ok(users[i]);
        }
      }
      r := Err(UserNotFound);
    }

    method Create(name: string, email: string, password: string) returns (r: Result<User, Error>)
      modifies this
      ensures r.Ok? <==> forall u :: u in old(users) ==> u.email != email
      ensures r.Err? ==> r == Err(EmailAlreadyExists) && users == old(users) && nextID == old(nextID)
      ensures r.Ok? ==> r.value == User(old(nextID), name, email, password)
      ensures r.Ok? ==> users == old(users) + [r.value] && nextID == old(nextID) + 1
    {
      for i := 0 to |users|
        invariant forall k :: 0 <= k < i ==> users[k].email != email
        invariant users == old(users) && nextID == old(nextID)
      {
        if users[i].email == email {
          return Err(EmailAlreadyExists);
        }
      }
      var user := User(nextID, name, email, password);
      users := users + [user];
      nextID := nextID + 1;
      r := Ok(user);
    }

    method Update(id: int, name: string, email: string) returns (r: Result<User, Error>)
      modifies this`users
      ensures var u := Updated(old(users), id, name, email);
        match u
        case Err(e) => r == Err(e) && users == old(users)
        case Ok(after) => users == after && r.Ok? && r == Lookup(after, id)
      ensures match r
        case Ok(u) =>
          exists i ::
            FirstAt(old(users), id, i) && u == old(users)[i].(name := name, email := email) &&
            users == old(users)[i := u] && forall k :: 0 <= k < i ==> old(users)[k].email != email
        case Err(EmailAlreadyExists) =>
          exists k ::
            0 <= k < |old(users)| && old(users)[k].email == email &&
            forall m :: 0 <= m <= k ==> old(users)[m].id != id
        case Err(UserNotFound) => forall u :: u in old(users) ==> u.id != id && u.email != email
    {
      for i := 0 to |users|
        invariant forall k :: 0 <= k < i ==> users[k].id != id && users[k].email != email
        invariant users == old(users)
      {
        if users[i].id != id && users[i].email == email {
          return Err(EmailAlreadyExists);
        }
        if users[i].id == id {
          assert ById(users, id) == i;
          users := users[i := users[i].(name := name, email := email)];
          FoundFirst(users, id, i);
          return Ok(users[i]);
        }
      }
      r := Err(UserNotFound);
    }

    method Delete(id: int) returns (r: Result<(), Error>)
      modifies this`users
      ensures match Deleted(old(users), id)
        case Err(e) => r == Err(e) && users == old(users)
        case Ok(after) => r.Ok? && users == after
      ensures match r
        case Ok(_) => exists i :: FirstAt(old(users), id, i) && users == old(users)[..i] + old(users)[i + 1..]
        case Err(e) => e == UserNotFound && forall u :: u in old(users) ==> u.id != id
    {
      for i := 0 to |users|
        invariant forall k :: 0 <= k < i ==> users[k].id != id
        invariant users == old(users)
      {
        if users[i].id == id {
          assert ById(users, id) == i;
          users := users[..i] + users[i + 1..];
          return Ok(());
        }
      }
      r := Err(UserNotFound);
    }

    method UpdatePassword(id: int, hash: string) returns (r: Result<(), Error>)
      modifies this`users
      ensures match Rehashed(old(users), id, hash)
        case Err(e) => r == Err(e) && users == old(users)
        case Ok(after) => r.Ok? && users == after
      ensures match r
        case Ok(_) =>
          exists i :: FirstAt(old(users), id, i) && users == old(users)[i := old(users)[i].(passwordHash := hash)]
        case Err(e) => e == UserNotFound && forall u :: u in old(users) ==> u.id != id
    {
      for i := 0 to |users|
        invariant forall k :: 0 <= k < i ==> users[k].id != id
        invariant users == old(users)
      {
        if users[i].id == id {
          assert ById(users, id) == i;
          users := users[i := users[i].(passwordHash := hash)];
          return Ok(());
        }
      }
      r := Err(UserNotFound);
    }
  }

  // ----- runs -----

  datatype Op =
    | Create(name: string, email: string, password: string)
    | Update(id: int, name: string, email: string)
    | UpdatePassword(id: int, hash: string)
    | Delete(id: int)

  datatype Store = Store(users: seq<User>, nextID: int)

  const EMPTY := Store([], 1)

  predicate CanCreate(users: seq<User>, email: string) {
    ByEmail(users, email) == |users|
  }

  /** The store after one operation; a failed operation changes nothing. */
  function Apply(s: Store, op: Op): Store {
    match op
    case Create(name, email, password) =>
      if CanCreate(s.users, email)
      then Store(s.users + [User(s.nextID, name, email, password)], s.nextID + 1) else s
    case Update(id, name, email) =>
      (match Updated(s.users, id, name, email) case Ok(us) => s.(users := us) case Err(_) => s)
    case UpdatePassword(id, hash) =>
      (match Rehashed(s.users, id, hash) case Ok(us) => s.(users := us) case Err(_) => s)
    case Delete(id) =>
      (match Deleted(s.users, id) case Ok(us) => s.(users := us) case Err(_) => s)
  }

  function Exec(s: Store, ops: seq<Op>): Store {
    if ops == [] then s else Apply(Exec(s, ops[..|ops| - 1]), ops[|ops| - 1])
  }

  lemma {:induction false} ApplyKeepsRep(s: Store, op: Op)
    requires Rep(s.users, s.nextID)
    ensures Rep(Apply(s, op).users, Apply(s, op).nextID) && s.nextID <= Apply(s, op).nextID
  {
    var after := Apply(s, op).users;
    match op
    case Create(_, _, _) =>
    case Update(_, _, _) => SameIdsKeepRep(s.users, after, s.nextID);
    case UpdatePassword(_, _) => SameIdsKeepRep(s.users, after, s.nextID);
    case Delete(id) => RemovalKeepsRep(s.users, ById(s.users, id), s.nextID);
  }

  lemma SameIdsKeepRep(users: seq<User>, after: seq<User>, nextID: int)
    requires Rep(users, nextID) && |after| == |users|
    requires forall i :: 0 <= i < |users| ==> after[i].id == users[i].id
    ensures Rep(after, nextID)
  {}

  lemma RemovalKeepsRep(users: seq<User>, i: nat, nextID: int)
    requires Rep(users, nextID)
    ensures i < |users| ==> Rep(users[..i] + users[i + 1..], nextID)
  {
    if i < |users| {
      var after := users[..i] + users[i + 1..];
      forall k | 0 <= k < |after| ensures after[k] == users[if k < i then k else k + 1] {}
    }
  }

  lemma {:induction false} ExecKeepsRep(ops: seq<Op>)
    ensures Rep(Exec(EMPTY, ops).users, Exec(EMPTY, ops).nextID)
  {
    if ops != [] {
      ExecKeepsRep(ops[..|ops| - 1]);
      ApplyKeepsRep(Exec(EMPTY, ops[..|ops| - 1]), ops[|ops| - 1]);
    }
  }

  lemma {:induction false} CounterNeverFalls(ops: seq<Op>, i: nat, j: nat)
    requires i <= j <= |ops|
    ensures Exec(EMPTY, ops[..i]).nextID <= Exec(EMPTY, ops[..j]).nextID
    decreases j
  {
    if i < j {
      CounterNeverFalls(ops, i, j - 1);
      assert ops[..j][..j - 1] == ops[..j - 1];
      ExecKeepsRep(ops[..j - 1]);
      ApplyKeepsRep(Exec(EMPTY, ops[..j - 1]), ops[j - 1]);
    }
  }

  /** In every run an id handed out by a successful create is above every id
      present in any earlier state, so no id is ever used for a second user. */
  lemma {:induction false} IdsAreNeverReused(ops: seq<Op>, i: nat, j: nat, u: User)
    requires i <= j < |ops| && ops[j].Create? && u in Exec(EMPTY, ops[..i]).users
    requires CanCreate(Exec(EMPTY, ops[..j]).users, ops[j].email)
    ensures var after := Exec(EMPTY, ops[..j + 1]).users;
      after != [] && after[|after| - 1].id > u.id
      && after[|after| - 1] == User(Exec(EMPTY, ops[..j]).nextID, ops[j].name, ops[j].email, ops[j].password)
  {
    hide ByEmail;
    ExecKeepsRep(ops[..i]);
    CounterNeverFalls(ops, i, j);
    var before := Exec(EMPTY, ops[..j]);
    assert ops[..j + 1][..j] == ops[..j];
    assert Exec(EMPTY, ops[..j + 1]) == Apply(before, ops[j]);
    assert u.id < Exec(EMPTY, ops[..i]).nextID <= before.nextID;
  }

  /** A lookup finds a stored user with the id if there is one. */
  lemma LookupFinds(users: seq<User>, id: int)
    ensures match Lookup(users, id)
      case Ok(u) => u in users && u.id == id
      case Err(e) => e == UserNotFound && forall u :: u in users ==> u.id != id
  {
    var i := ById(users, id);
    if i == |users| {
      forall u | u in users ensures u.id != id {
        var k :| 0 <= k < |users| && users[k] == u;
      }
    }
  }

  /** Reads see the last write: a created user is found under its new id, a
      deleted one no longer is, an update shows in name and email and in nothing
      else, a password change in the hash and in nothing else. A write of a user
      that is not there changes nothing. */
  lemma WritesAreSeen(s: Store, op: Op)
    requires Rep(s.users, s.nextID)
    ensures var t := Apply(s, op).users;
      match op
      case Create(name, email, password) =>
        (forall u :: u in s.users ==> u.email != email) ==>
          Lookup(t, s.nextID) == Ok(User(s.nextID, name, email, password))
      case Delete(id) => Lookup(t, id) == Err(UserNotFound)
      case UpdatePassword(id, hash) =>
        (match Lookup(s.users, id)
         case Ok(u) => Lookup(t, id) == Ok(User(id, u.name, u.email, hash))
         case Err(_) => t == s.users)
      case Update(id, name, email) =>
        (match Lookup(s.users, id)
         case Ok(u) =>
           var changes := Updated(s.users, id, name, email).Ok?;
           Lookup(t, id) == Ok(if changes then User(id, name, email, u.passwordHash) else u)
         case Err(_) => t == s.users)
  {
    hide Rep, Updated, Deleted, Rehashed, Lookup, CanCreate;
    match op
    case Create(_, _, _) => CreateIsSeen(s, op);
    case Update(_, _, _) => UpdateIsSeen(s, op);
    case UpdatePassword(_, _) => RehashIsSeen(s, op);
    case Delete(_) => DeleteIsSeen(s, op);
  }

  lemma CreateIsSeen(s: Store, op: Op)
    requires Rep(s.users, s.nextID) && op.Create?
    ensures (forall u :: u in s.users ==> u.email != op.email) ==>
      Lookup(Apply(s, op).users, s.nextID) == Ok(User(s.nextID, op.name, op.email, op.password))
  {
    if forall u :: u in s.users ==> u.email != op.email {
      assert ByEmail(s.users, op.email) == |s.users|;
      FoundFirst(Apply(s, op).users, s.nextID, |s.users|);
    }
  }

  lemma DeleteIsSeen(s: Store, op: Op)
    requires Rep(s.users, s.nextID) && op.Delete?
    ensures Lookup(Apply(s, op).users, op.id) == Err(UserNotFound)
  {
    var i, t := ById(s.users, op.id), Apply(s, op).users;
    if i < |s.users| {
      assert forall k :: 0 <= k < |t| ==> t[k] == s.users[if k < i then k else k + 1];
    }
  }

  lemma RehashIsSeen(s: Store, op: Op)
    requires op.UpdatePassword?
    ensures match Lookup(s.users, op.id)
      case Ok(u) => Lookup(Apply(s, op).users, op.id) == Ok(User(op.id, u.name, u.email, op.hash))
      case Err(_) => Apply(s, op).users == s.users
  {
    if Lookup(s.users, op.id).Ok? {
      FoundFirst(Apply(s, op).users, op.id, ById(s.users, op.id));
    }
  }

  lemma UpdateIsSeen(s: Store, op: Op)
    requires op.Update?
    ensures match Lookup(s.users, op.id)
      case Ok(u) =>
        var changes := Updated(s.users, op.id, op.name, op.email).Ok?;
        Lookup(Apply(s, op).users, op.id) == Ok(if changes then User(op.id, op.name, op.email, u.passwordHash) else u)
      case Err(_) => Apply(s, op).users == s.users
  {
    if Updated(s.users, op.id, op.name, op.email).Ok? {
      FoundFirst(Apply(s, op).users, op.id, ById(s.users, op.id));
    }
  }

  /** Creates, deletes and password changes keep emails distinct. */
  lemma OtherOpsKeepEmailsDistinct(s: Store, op: Op)
    requires DistinctEmails(s.users) && !op.Update?
    ensures DistinctEmails(Apply(s, op).users)
  {}

  /** No user stored behind the one with this id holds the email. */
  ghost predicate FreeBehind(users: seq<User>, id: int, email: string) {
    forall k :: ById(users, id) < k < |users| ==> users[k].email != email
  }

  /** An update keeps emails distinct exactly when no user stored behind the
      updated one holds the new email. */
  lemma UpdateKeepsEmailsDistinctIff(s: Store, op: Op)
    requires DistinctEmails(s.users) && op.Update?
    ensures DistinctEmails(Apply(s, op).users) <==> FreeBehind(s.users, op.id, op.email)
  {
    var i := ById(s.users, op.id);
    if Updated(s.users, op.id, op.name, op.email).Ok? {
      var after := Apply(s, op).users;
      assert after[i].email == op.email;
      if k :| i < k < |s.users| && s.users[k].email == op.email {
        assert after[k].email == after[i].email;
      } else {
        forall a, b | 0 <= a < b < |after| ensures after[a].email != after[b].email {
          if b == i {
            assert a < ByEmail(s.users, op.email);
          }
        }
      }
    }
  }

  /** After `k` operations of a run, emails are distinct. */
  ghost predicate DistinctAt(ops: seq<Op>, k: nat)
    requires k <= |ops|
  {
    DistinctEmails(Exec(EMPTY, ops[..k]).users)
  }

  /** Operation `k` of a run is no update to an email held behind its user. */
  ghost predicate FreeAt(ops: seq<Op>, k: nat)
    requires k < |ops|
  {
    ops[k].Update? ==> FreeBehind(Exec(EMPTY, ops[..k]).users, ops[k].id, ops[k].email)
  }

  lemma StepKeepsEmailsDistinctIff(ops: seq<Op>, k: nat)
    requires k < |ops| && DistinctAt(ops, k)
    ensures DistinctAt(ops, k + 1) <==> FreeAt(ops, k)
  {
    var s := Exec(EMPTY, ops[..k]);
    assert ops[..k + 1][..k] == ops[..k] && Exec(EMPTY, ops[..k + 1]) == Apply(s, ops[k]);
    if ops[k].Update? {
      UpdateKeepsEmailsDistinctIff(s, ops[k]);
    } else {
      OtherOpsKeepEmailsDistinct(s, ops[k]);
    }
  }

  /** Emails are distinct throughout a run exactly when every update of it finds
      its email free behind the user that it changes. */
  lemma {:induction false} EmailsStayDistinctIff(ops: seq<Op>, n: nat)
    requires n <= |ops|
    ensures (forall k :: 0 <= k <= n ==> DistinctAt(ops, k)) <==> (forall k :: 0 <= k < n ==> FreeAt(ops, k))
  {
    hide DistinctAt, FreeAt;
    if n == 0 {
      StartsDistinct(ops);
    } else {
      EmailsStayDistinctIff(ops, n - 1);
      if DistinctAt(ops, n - 1) {
        StepKeepsEmailsDistinctIff(ops, n - 1);
      }
    }
  }

  lemma StartsDistinct(ops: seq<Op>)
    ensures DistinctAt(ops, 0)
  {}

  /** The scan stops at the user: a later duplicate is not seen. */
  lemma UpdateCanDuplicateEmail()
    ensures var s := Exec(EMPTY, [Create("A", "a@x", "p"), Create("B", "b@x", "p"), Update(1, "A", "b@x")]);
      !DistinctEmails(s.users)
  {
    var ops := [Create("A", "a@x", "p"), Create("B", "b@x", "p"), Update(1, "A", "b@x")];
    var s1 := Apply(EMPTY, ops[0]);
    assert ByEmail(s1.users, "b@x") == 1;
    var s2 := Apply(s1, ops[1]);
    assert s2.users == [User(1, "A", "a@x", "p"), User(2, "B", "b@x", "p")];
    assert ById(s2.users, 1) == 0;
    var s3 := Apply(s2, ops[2]);
    assert s3.users[0].email == s3.users[1].email;
    assert ops[..2][..1] == ops[..1] == [ops[0]] && ops[..1][..0] == [];
    assert Exec(EMPTY, ops[..1]) == s1 && Exec(EMPTY, ops[..2]) == s2 && Exec(EMPTY, ops) == s3;
  }
}
