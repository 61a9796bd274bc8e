/**
 User lists: the adapter's table keyed by credential, the node's mirror of it keyed by user id, and the full
 lists and deltas that bring both to a new list.
 */
module Roster {
  import opened Wire

  /** A user with an empty credential is one that may not connect. */
  datatype User = User(id: int, uuid: string, speedLimit: int, deviceLimit: int)

  type Table = map<string, User>

  type Mirror = map<int, User>

  // ------------------------------------------------------------------ the adapter's table

  /** Adding keeps the record a credential already has. */
  function AddAll(t: Table, us: seq<User>): Table
    decreases |us|
  {
    if us == [] then t else AddAll(if us[0].uuid in t then t else t[us[0].uuid := us[0]], us[1..])
  }

  /** Upserting replaces it. */
  function UpsertAll(t: Table, us: seq<User>): Table
    decreases |us|
  {
    if us == [] then t else UpsertAll(t[us[0].uuid := us[0]], us[1..])
  }

  function DelAll(t: Table, cs: seq<string>): Table { t - set c | c in cs }

  lemma {:induction false} AddAllAt(t: Table, us: seq<User>, c: string)
    ensures c in t ==> c in AddAll(t, us) && AddAll(t, us)[c] == t[c]
    ensures c !in t && c in AddAll(t, us) ==> AddAll(t, us)[c] in us && AddAll(t, us)[c].uuid == c
    ensures forall u :: u in us && u.uuid == c ==> c in AddAll(t, us)
    decreases |us|
  {
    if us != [] {
      AddAllAt(if us[0].uuid in t then t else t[us[0].uuid := us[0]], us[1..], c);
      assert forall u :: u in us <==> u == us[0] || u in us[1..];
    }
  }

  lemma {:induction false} UpsertAllAt(t: Table, us: seq<User>, c: string)
    ensures (forall u :: u in us ==> u.uuid != c) ==> (c in UpsertAll(t, us) <==> c in t) && (c in t ==> UpsertAll(t, us)[c] == t[c])
    ensures forall u :: u in us && u.uuid == c ==> c in UpsertAll(t, us) && UpsertAll(t, us)[c] in us && UpsertAll(t, us)[c].uuid == c
    decreases |us|
  {
    if us != [] {
      UpsertAllAt(t[us[0].uuid := us[0]], us[1..], c);
      assert forall u :: u in us <==> u == us[0] || u in us[1..];
    }
  }

  /** Of several new records with one credential the first is added ... */
  lemma {:induction false} AddAllFirst(t: Table, us: seq<User>, i: nat)
    requires i < |us| && us[i].uuid !in t && forall j :: 0 <= j < i ==> us[j].uuid != us[i].uuid
    ensures us[i].uuid in AddAll(t, us) && AddAll(t, us)[us[i].uuid] == us[i]
    decreases |us|
  {
    if i == 0 {
      AddAllAt(t[us[0].uuid := us[0]], us[1..], us[0].uuid);
    } else {
      assert us[1..][i - 1] == us[i];
      AddAllFirst(if us[0].uuid in t then t else t[us[0].uuid := us[0]], us[1..], i - 1);
    }
  }

  /** ... and the last is upserted. */
  lemma {:induction false} UpsertAllLast(t: Table, us: seq<User>, i: nat)
    requires i < |us| && forall j :: i < j < |us| ==> us[j].uuid != us[i].uuid
    ensures us[i].uuid in UpsertAll(t, us) && UpsertAll(t, us)[us[i].uuid] == us[i]
    decreases |us|
  {
    if i == 0 {
      assert forall u :: u in us[1..] ==> u.uuid != us[0].uuid;
      UpsertAllAt(t[us[0].uuid := us[0]], us[1..], us[0].uuid);
    } else {
      assert us[1..][i - 1] == us[i];
      UpsertAllLast(t[us[0].uuid := us[0]], us[1..], i - 1);
    }
  }

  class UserTable {
    var users: Table
    var closed: bool
    const valid: string -> bool

    /** Only valid credentials get in. */
    ghost predicate Valid()
      reads this
    {
      forall c :: c in users ==> valid(c)
    }

    predicate AllValid(us: seq<User>) { forall i :: 0 <= i < |us| ==> valid(us[i].uuid) }

    constructor (valid: string -> bool)
      ensures Valid() && users == map[] && !closed && this.valid == valid
    {
      users, closed := map[], false;
      this.valid := valid;
    }

    /** Validates the whole list before it touches the table. */
    method AddUsers(us: seq<User>) returns (ok: bool)
      requires Valid()
      modifies this`users
      ensures Valid() && closed == old(closed)
      ensures ok <==> AllValid(us) && !closed
      ensures users == if ok then AddAll(old(users), us) else old(users)
    {
      var i := 0;
      while i < |us|
        invariant i <= |us| && AllValid(us[..i])
      {
        if !valid(us[i].uuid) {
          return false;
        }
        i := i + 1;
      }
      if closed {
        return false;
      }
      assert us[0..] == us && us[..|us|] == us;
      for i := 0 to |us|
        invariant Valid() && AddAll(users, us[i..]) == AddAll(old(users), us)
      {
        assert us[i..][1..] == us[i + 1..];
        if us[i].uuid !in users {
          users := users[us[i].uuid := us[i]];
        }
      }
      return true;
    }

    method UpsertUsers(us: seq<User>) returns (ok: bool)
      requires Valid()
      modifies this`users
      ensures Valid() && closed == old(closed)
      ensures ok <==> AllValid(us) && !closed
      ensures users == if ok then UpsertAll(old(users), us) else old(users)
    {
      if exists i :: 0 <= i < |us| && !valid(us[i].uuid) {
        return false;
      }
      if closed {
        return false;
      }
      assert us[0..] == us;
      for i := 0 to |us|
        invariant Valid() && UpsertAll(users, us[i..]) == UpsertAll(old(users), us)
      {
        assert us[i..][1..] == us[i + 1..];
        users := users[us[i].uuid := us[i]];
      }
      return true;
    }

    /** Returns the ids of the users it removed, which are then revoked. */
    method DelUsers(cs: seq<string>) returns (removed: seq<int>)
      requires Valid()
      modifies this`users
      ensures Valid()
      ensures users == DelAll(old(users), cs)
      ensures forall id :: id in removed <==> exists c :: c in cs && c in old(users) && old(users)[c].id == id
    {
      removed := [];
      for i := 0 to |cs|
        invariant Valid() && users == DelAll(old(users), cs[..i])
        invariant forall id :: id in removed <==> exists c :: c in cs[..i] && c in old(users) && old(users)[c].id == id
      {
        var c := cs[i];
        assert cs[..i + 1] == cs[..i] + [c];
        if valid(c) {
          if c in users {
            removed := removed + [users[c].id];
          }
          users := users - {c};
        }
      }
      assert cs[..|cs|] == cs;
    }
  }

  // ------------------------------------------------------------------ lists and mirrors

  /** The list as a mirror: the last record of each id, ignoring records without a credential. */
  function Want(us: seq<User>): Mirror {
    if us == [] then map[]
    else
      var u := us[|us| - 1];
      if u.uuid == "" then Want(us[..|us| - 1]) else Want(us[..|us| - 1])[u.id := u]
  }

  /** The last record of each id, with or without a credential. */
  function Last(us: seq<User>): Mirror {
    if us == [] then map[] else Last(us[..|us| - 1])[us[|us| - 1].id := us[|us| - 1]]
  }

  /** One record per id. */
  predicate Distinct(us: seq<User>) { forall i, j :: 0 <= i < j < |us| ==> us[i].id != us[j].id }

  /** What `at` remembers: where each id is in the list. */
  predicate Indexed(us: seq<User>, at: map<int, nat>) {
    && (forall id :: id in at ==> at[id] < |us| && us[at[id]].id == id)
    && (forall i :: 0 <= i < |us| ==> us[i].id in at && at[us[i].id] == i)
  }

  /** Puts a record in its id's place, or at the end. */
  method Put(us: seq<User>, at: map<int, nat>, u: User) returns (vs: seq<User>, at': map<int, nat>)
    requires Indexed(us, at)
    ensures Indexed(vs, at')
    ensures Last(vs) == Last(us)[u.id := u]
    ensures forall v :: v in vs ==> v == u || v in us
  {
    hide Last;
    if u.id in at {
      LastSet(us, at[u.id], u);
      vs, at' := us[at[u.id] := u], at;
    } else {
      LastSnoc(us + [u], |us|);
      assert (us + [u])[..|us|] == us && (us + [u])[..|us| + 1] == us + [u];
      vs, at' := us + [u], at[u.id := |us|];
    }
  }

  lemma {:induction false} LastSnoc(us: seq<User>, n: nat)
    requires n < |us|
    ensures Last(us[..n + 1]) == Last(us[..n])[us[n].id := us[n]]
  {
    assert us[..n + 1][..n] == us[..n];
  }

  lemma {:induction false} LastSet(us: seq<User>, i: nat, u: User)
    requires Distinct(us) && i < |us| && us[i].id == u.id
    ensures Last(us[i := u]) == Last(us)[u.id := u]
  {
    var n := |us| - 1;
    var vs, last := us[i := u], us[n];
    if i == n {
      assert vs[..n] == us[..n];
    } else {
      assert vs[..n] == us[..n][i := u];
      LastSet(us[..n], i, u);
    }
  }

  lemma {:induction false} LastIsListed(us: seq<User>, id: int)
    ensures id in Last(us) ==> Last(us)[id].id == id && Last(us)[id] in us
    ensures forall u :: u in us ==> u.id in Last(us)
  {
    if us != [] {
      LastIsListed(us[..|us| - 1], id);
      assert us == us[..|us| - 1] + [us[|us| - 1]];
    }
  }

  /** The last record of an id counts. */
  lemma {:induction false} LastIsLatest(us: seq<User>, i: nat)
    requires i < |us| && forall j :: i < j < |us| ==> us[j].id != us[i].id
    ensures us[i].id in Last(us) && Last(us)[us[i].id] == us[i]
  {
    var n := |us| - 1;
    if i < n {
      assert us[..n][i] == us[i];
      LastIsLatest(us[..n], i);
    }
  }

  /** Of a full list, the last record of an id that has a credential counts ... */
  lemma {:induction false} WantIsLatest(us: seq<User>, i: nat)
    requires i < |us| && us[i].uuid != "" && forall j :: i < j < |us| ==> us[j].id != us[i].id || us[j].uuid == ""
    ensures us[i].id in Want(us) && Want(us)[us[i].id] == us[i]
  {
    var n := |us| - 1;
    if i < n {
      assert us[..n][i] == us[i];
      WantIsLatest(us[..n], i);
    }
  }

  /** ... and an id without one is not wanted. */
  lemma {:induction false} WantIsListed(us: seq<User>, id: int)
    ensures id in Want(us) ==> Want(us)[id] in us && Want(us)[id].id == id && Want(us)[id].uuid != ""
  {
    if us != [] {
      var n := |us| - 1;
      WantIsListed(us[..n], id);
      assert us == us[..n] + [us[n]];
    }
  }

  /** Drops records without a credential and keeps one record per id, the last. */
  method Normalize(us: seq<User>) returns (out: seq<User>)
    ensures Distinct(out) && Last(out) == Want(us) && forall u :: u in out ==> u.uuid != ""
  {
    out := [];
    var at: map<int, nat> := map[];
    for i := 0 to |us|
      invariant Indexed(out, at) && Last(out) == Want(us[..i]) && forall u :: u in out ==> u.uuid != ""
    {
      assert us[..i + 1][..i] == us[..i];
      if us[i].uuid != "" {
        out, at := Put(out, at, us[i]);
      }
    }
    assert us[..|us|] == us;
  }

  function Gone(ids: seq<int>): (us: seq<User>)
    ensures |us| == |ids| && forall i :: 0 <= i < |ids| ==> us[i] == User(ids[i], "", 0, 0)
  {
    seq(|ids|, i requires 0 <= i < |ids| => User(ids[i], "", 0, 0))
  }

  /**
   One final record per id that a delta mentions: removed ids lose their credential, then the upserted
   records, the last of each id winning. The two short forms take the list as it is.
   */
  method DeltaTargets(upserted: seq<User>, removed: seq<int>) returns (out: seq<User>)
    ensures Distinct(out) && Last(out) == Last(Gone(removed) + upserted)
  {
    if |removed| == 0 && |upserted| <= 1 {
      assert Gone(removed) + upserted == upserted;
      return upserted;
    }
    if |removed| == 1 && |upserted| == 0 {
      assert Gone(removed) + upserted == [User(removed[0], "", 0, 0)];
      return [User(removed[0], "", 0, 0)];
    }
    out := GeneralTargets(upserted, removed);
  }

  method GeneralTargets(upserted: seq<User>, removed: seq<int>) returns (out: seq<User>)
    ensures Distinct(out) && Last(out) == Last(Gone(removed) + upserted)
  {
    hide Last, Gone;
    out := [];
    var at: map<int, nat> := map[];
    ghost var all := Gone(removed) + upserted;
    assert all[..0] == [];
    for i := 0 to |removed|
      invariant Indexed(out, at) && Last(out) == Last(all[..i])
    {
      LastSnoc(all, i);
      out, at := Put(out, at, User(removed[i], "", 0, 0));
    }
    for i := 0 to |upserted|
      invariant Indexed(out, at) && Last(out) == Last(all[..|removed| + i])
    {
      LastSnoc(all, |removed| + i);
      out, at := Put(out, at, upserted[i]);
    }
    assert all[..|all|] == all;
  }

  // ------------------------------------------------------------------ from one list to the next

  /** The table holds exactly the mirror's users, each under its own credential. */
  ghost predicate Agree(t: Table, known: Mirror) {
    && (forall c :: c in t ==> t[c].uuid == c && t[c].id in known && known[t[c].id] == t[c])
    && (forall id :: id in known ==> known[id].id == id && known[id].uuid != "" && known[id].uuid in t && t[known[id].uuid] == known[id])
  }

  /** A mirror whose users all have credentials of their own. */
  ghost predicate Proper(want: Mirror) {
    && (forall id :: id in want ==> want[id].id == id && want[id].uuid != "")
    && (forall a, b :: a in want && b in want && want[a].uuid == want[b].uuid ==> a == b)
  }

  /** The user's credential is not the one they have now. */
  predicate Changes(known: Mirror, want: Mirror, id: int)
  {
    id !in known || id !in want || known[id].uuid != want[id].uuid
  }

  /** The three lists of a change, in any order. */
  ghost predicate Diff(known: Mirror, want: Mirror, removed: seq<string>, added: seq<User>, updated: seq<User>) {
    && (forall c :: c in removed <==> exists id :: id in known && Changes(known, want, id) && known[id].uuid == c)
    && (forall u :: u in added <==> u.id in want && want[u.id] == u && Changes(known, want, u.id))
    && (forall u :: u in updated <==> u.id in want && want[u.id] == u && !Changes(known, want, u.id) && known[u.id] != u)
  }

  function Applied(t: Table, removed: seq<string>, added: seq<User>, updated: seq<User>): Table {
    UpsertAll(AddAll(DelAll(t, removed), added), updated)
  }

  /** After the deletions, what is left is what stays. */
  lemma {:induction false} AfterDeletes(t: Table, known: Mirror, want: Mirror, removed: seq<string>, added: seq<User>, updated: seq<User>, c: string)
    requires Agree(t, known) && Diff(known, want, removed, added, updated)
    ensures c in DelAll(t, removed) <==> c in t && !Changes(known, want, t[c].id)
    ensures c in DelAll(t, removed) ==> DelAll(t, removed)[c] == t[c]
  {
    if c in t {
      assert c in removed <==> exists id :: id in known && Changes(known, want, id) && known[id].uuid == c;
      assert known[t[c].id].uuid == c;
    }
  }

  /** A credential of the new list ends up with its user, be they new, changed or kept. */
  lemma {:induction false} WantedArrives(t: Table, known: Mirror, want: Mirror, removed: seq<string>, added: seq<User>, updated: seq<User>, id: int)
    requires Agree(t, known) && Proper(want) && Diff(known, want, removed, added, updated) && id in want
    ensures var r := Applied(t, removed, added, updated); want[id].uuid in r && r[want[id].uuid] == want[id]
  {
    var c, a := want[id].uuid, DelAll(t, removed);
    var b := AddAll(a, added);
    AfterDeletes(t, known, want, removed, added, updated, c);
    AddAllAt(a, added, c);
    UpsertAllAt(b, updated, c);
    assert want[id] in added <==> Changes(known, want, id);
    assert want[id] in updated <==> !Changes(known, want, id) && known[id] != want[id];
    hide AddAll, UpsertAll, DelAll;
    assert forall u :: u in updated && u.uuid == c ==> u == want[id];
    assert forall u :: u in added && u.uuid == c ==> u == want[id];
  }

  /** And no credential outside the new list survives. */
  lemma {:induction false} NothingElseStays(t: Table, known: Mirror, want: Mirror, removed: seq<string>, added: seq<User>, updated: seq<User>, c: string)
    requires Agree(t, known) && Proper(want) && Diff(known, want, removed, added, updated) && c in Applied(t, removed, added, updated)
    ensures exists id :: id in want && want[id].uuid == c
  {
    var a := DelAll(t, removed);
    var b := AddAll(a, added);
    AfterDeletes(t, known, want, removed, added, updated, c);
    AddAllAt(a, added, c);
    UpsertAllAt(b, updated, c);
    hide AddAll, UpsertAll, DelAll;
    if u :| u in updated && u.uuid == c {
      assert want[u.id].uuid == c;
    } else if c in a {
      assert want[t[c].id].uuid == c;
    } else {
      assert want[b[c].id].uuid == c;
    }
  }

  /**
   Deleting, adding and upserting the difference of two lists takes a table that agrees with the first to
   one that agrees with the second, in whatever order each list is, and also when users swap credentials.
   */
  lemma {:induction false} DiffApplies(t: Table, known: Mirror, want: Mirror, removed: seq<string>, added: seq<User>, updated: seq<User>)
    requires Agree(t, known) && Proper(want) && Diff(known, want, removed, added, updated)
    ensures Agree(Applied(t, removed, added, updated), want)
  {
    var r := Applied(t, removed, added, updated);
    forall id | id in want
      ensures want[id].uuid in r && r[want[id].uuid] == want[id]
    {
      WantedArrives(t, known, want, removed, added, updated, id);
    }
    forall c | c in r
      ensures r[c].uuid == c && r[c].id in want && want[r[c].id] == r[c]
    {
      NothingElseStays(t, known, want, removed, added, updated, c);
    }
  }

  /** A mirror leaves a table no choice. */
  lemma {:induction false} AgreeIsExact(t: Table, u: Table, known: Mirror)
    requires Agree(t, known) && Agree(u, known)
    ensures t == u
  {
    assert forall c :: c in t ==> c in u && u[c] == t[c];
    assert forall c :: c in u ==> c in t;
  }

  /** The mirror after a delta. */
  function Patched(known: Mirror, last: Mirror): Mirror {
    map id | id in known.Keys + last.Keys && (if id in last then last[id].uuid != "" else true)
      :: if id in last then last[id] else known[id]
  }

  /**
   What a delta means for one id: the last upserted record, or nothing if that has no credential; else removed if it is
   listed as removed; else what it was.
   */
  lemma {:induction false} DeltaMeans(known: Mirror, upserted: seq<User>, removed: seq<int>, id: int)
    ensures var m := Patched(known, Last(Gone(removed) + upserted));
            && (forall i :: 0 <= i < |upserted| && upserted[i].id == id && (forall j :: i < j < |upserted| ==> upserted[j].id != id) ==>
                  if upserted[i].uuid == "" then id !in m else id in m && m[id] == upserted[i])
            && ((forall i :: 0 <= i < |upserted| ==> upserted[i].id != id) ==>
                  if id in removed then id !in m else (id in m <==> id in known) && (id in known ==> m[id] == known[id]))
  {
    var all, r := Gone(removed) + upserted, |removed|;
    forall i | 0 <= i < |upserted| && upserted[i].id == id && (forall j :: i < j < |upserted| ==> upserted[j].id != id)
      ensures id in Last(all) && Last(all)[id] == upserted[i]
    {
      assert all[r + i] == upserted[i] && forall j :: r + i < j < |all| ==> all[j] == upserted[j - r];
      LastIsLatest(all, r + i);
    }
    if forall i :: 0 <= i < |upserted| ==> upserted[i].id != id {
      NotMentioned(upserted, removed, id);
    }
  }

  lemma {:induction false} NotMentioned(upserted: seq<User>, removed: seq<int>, id: int)
    requires forall i :: 0 <= i < |upserted| ==> upserted[i].id != id
    ensures var last := Last(Gone(removed) + upserted);
            (id in last <==> id in removed) && (id in last ==> last[id].uuid == "")
  {
    var all := Gone(removed) + upserted;
    LastIsListed(all, id);
    if id in removed {
      var i :| 0 <= i < |removed| && removed[i] == id;
      assert all[i].id == id && all[i] in all;
    }
    assert forall j :: |removed| <= j < |all| ==> all[j] == upserted[j - |removed|];
    if id in Last(all) {
      var i :| 0 <= i < |all| && all[i] == Last(all)[id];
      assert all[i] == Gone(removed)[i] && removed[i] == id;
    }
  }

  /** A user whose credential stays is neither deleted nor added again, and updated exactly if anything else changed. */
  lemma {:induction false} NobodyIsKicked(known: Mirror, want: Mirror, removed: seq<string>, added: seq<User>, updated: seq<User>, id: int)
    requires Diff(known, want, removed, added, updated) && Proper(known) && Proper(want)
    requires id in known && id in want && known[id].uuid == want[id].uuid
    ensures known[id].uuid !in removed && want[id] !in added && (want[id] in updated <==> known[id] != want[id])
  {
    assert !Changes(known, want, id);
  }

  // ------------------------------------------------------------------ computing the difference

  /** The difference of two mirrors, as ranging over their maps finds it. */
  method DiffLists(known: Mirror, want: Mirror) returns (removed: seq<string>, added: seq<User>, updated: seq<User>)
    requires forall id :: id in want ==> want[id].id == id
    ensures Diff(known, want, removed, added, updated)
  {
    removed := RemovedFrom(known, want);
    added, updated := AddedTo(known, want);
  }

  method RemovedFrom(known: Mirror, want: Mirror) returns (removed: seq<string>)
    ensures forall c :: c in removed <==> exists id :: id in known && Changes(known, want, id) && known[id].uuid == c
  {
    removed := [];
    var rest := known.Keys;
    while rest != {}
      invariant rest <= known.Keys
      invariant forall c :: c in removed <==> exists id :: id in known && id !in rest && Changes(known, want, id) && known[id].uuid == c
      decreases rest
    {
      var id := Pick(rest);
      ghost var before := removed;
      if Changes(known, want, id) {
        removed := removed + [known[id].uuid];
      }
      forall c
        ensures c in removed <==> exists x :: x in known && x !in rest - {id} && Changes(known, want, x) && known[x].uuid == c
      {
        assert c in removed <==> c in before || (Changes(known, want, id) && known[id].uuid == c);
      }
      rest := rest - {id};
    }
  }

  method AddedTo(known: Mirror, want: Mirror) returns (added: seq<User>, updated: seq<User>)
    requires forall id :: id in want ==> want[id].id == id
    ensures forall u :: u in added <==> u.id in want && want[u.id] == u && Changes(known, want, u.id)
    ensures forall u :: u in updated <==> u.id in want && want[u.id] == u && !Changes(known, want, u.id) && known[u.id] != u
  {
    added, updated := [], [];
    var rest := want.Keys;
    while rest != {}
      invariant rest <= want.Keys
      invariant forall u :: u in added <==> u.id in want && u.id !in rest && want[u.id] == u && Changes(known, want, u.id)
      invariant forall u :: u in updated <==>
                  u.id in want && u.id !in rest && want[u.id] == u && !Changes(known, want, u.id) && known[u.id] != u
      decreases rest
    {
      var id := Pick(rest);
      var u := want[id];
      if Changes(known, want, id) {
        added := added + [u];
      } else if known[id] != u {
        updated := updated + [u];
      }
      rest := rest - {id};
    }
  }

  // What a delta's record does to its id.

  predicate Switches(known: Mirror, u: User) { u.id !in known || known[u.id].uuid != u.uuid }

  /** The three lists that a delta's final records give. */
  method DeltaLists(known: Mirror, next: seq<User>) returns (dropped: seq<string>, added: seq<User>, updated: seq<User>)
    requires Distinct(next) && forall id :: id in known ==> known[id].id == id && known[id].uuid != ""
    ensures Diff(known, Patched(known, Last(next)), dropped, added, updated)
  {
    dropped, added, updated := [], [], [];
    for i := 0 to |next|
      invariant forall c :: c in dropped <==> exists j :: 0 <= j < i && Switches(known, next[j]) && next[j].id in known && known[next[j].id].uuid == c
      invariant forall u :: u in added <==> u in next[..i] && u.uuid != "" && Switches(known, u)
      invariant forall u :: u in updated <==> u in next[..i] && u.uuid != "" && !Switches(known, u) && known[u.id] != u
    {
      var u := next[i];
      assert next[..i + 1] == next[..i] + [u];
      if u.id in known && Switches(known, u) {
        dropped := dropped + [known[u.id].uuid];
      }
      if u.uuid != "" {
        if Switches(known, u) {
          added := added + [u];
        } else if known[u.id] != u {
          updated := updated + [u];
        }
      }
    }
    assert next[..|next|] == next;
    DeltaIsDiff(known, next, dropped, added, updated);
  }

  lemma {:induction false} DistinctLast(us: seq<User>, u: User)
    requires Distinct(us)
    ensures u in us <==> u.id in Last(us) && Last(us)[u.id] == u
  {
    LastIsListed(us, u.id);
    if u in us {
      var i :| 0 <= i < |us| && us[i] == u;
      var j :| 0 <= j < |us| && us[j] == Last(us)[u.id];
    }
  }

  lemma {:induction false} DeltaIsDiff(known: Mirror, next: seq<User>, dropped: seq<string>, added: seq<User>, updated: seq<User>)
    requires Distinct(next) && forall id :: id in known ==> known[id].id == id && known[id].uuid != ""
    requires forall c :: c in dropped <==> exists j :: 0 <= j < |next| && Switches(known, next[j]) && next[j].id in known && known[next[j].id].uuid == c
    requires forall u :: u in added <==> u in next && u.uuid != "" && Switches(known, u)
    requires forall u :: u in updated <==> u in next && u.uuid != "" && !Switches(known, u) && known[u.id] != u
    ensures Diff(known, Patched(known, Last(next)), dropped, added, updated)
  {
    var last := Last(next);
    var want := Patched(known, last);
    forall u
      ensures u in next <==> u.id in last && last[u.id] == u
    {
      DistinctLast(next, u);
    }
    forall id | id in last
      ensures last[id].id == id && last[id] in next
    {
      LastIsListed(next, id);
    }
    hide Last;
    assert forall id :: id in last ==> (Changes(known, want, id) <==> Switches(known, last[id]) || last[id].uuid == "");
    assert forall id :: id in known && id !in last ==> !Changes(known, want, id);
    forall c
      ensures c in dropped <==> exists id :: id in known && Changes(known, want, id) && known[id].uuid == c
    {
      if c in dropped {
        var j :| 0 <= j < |next| && Switches(known, next[j]) && next[j].id in known && known[next[j].id].uuid == c;
        assert next[j] in next && last[next[j].id] == next[j];
      }
      if id :| id in known && Changes(known, want, id) && known[id].uuid == c {
        var j :| 0 <= j < |next| && next[j] == last[id];
      }
    }
  }

  lemma {:induction false} PatchedMore(known: Mirror, last: Mirror, u: User)
    ensures Patched(known, last[u.id := u]) ==
            if u.uuid == "" then Patched(known, last) - {u.id} else Patched(known, last)[u.id := u]
  {
  }

  /** Writing a delta's records into the mirror one by one patches it. */
  method PatchMirror(known: Mirror, next: seq<User>) returns (m: Mirror)
    ensures m == Patched(known, Last(next))
  {
    m := known;
    assert Patched(known, Last(next[..0])) == known;
    for i := 0 to |next|
      invariant m == Patched(known, Last(next[..i]))
    {
      LastSnoc(next, i);
      PatchedMore(known, Last(next[..i]), next[i]);
      hide Last, Patched;
      if next[i].uuid == "" {
        m := m - {next[i].id};
      } else {
        m := m[next[i].id := next[i]];
      }
    }
    assert next[..|next|] == next;
  }

  /**
   A delta and the full list it amounts to lead to the same table: the one that agrees with the patched
   mirror.
   */
  lemma {:induction false} DeltaRefinesFullList(t: Table, known: Mirror, next: seq<User>, full: seq<User>,
    dropped: seq<string>, added: seq<User>, updated: seq<User>,
    dropped': seq<string>, added': seq<User>, updated': seq<User>)
    requires Agree(t, known) && Want(full) == Patched(known, Last(next)) && Proper(Want(full))
    requires Diff(known, Patched(known, Last(next)), dropped, added, updated)
    requires Diff(known, Want(full), dropped', added', updated')
    ensures Applied(t, dropped, added, updated) == Applied(t, dropped', added', updated')
  {
    DiffApplies(t, known, Want(full), dropped, added, updated);
    DiffApplies(t, known, Want(full), dropped', added', updated');
    AgreeIsExact(Applied(t, dropped, added, updated), Applied(t, dropped', added', updated'), Want(full));
  }
}
