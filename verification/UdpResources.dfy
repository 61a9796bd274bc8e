/**
 The slots UDP sessions take: one of the user's session quota each, and one of their devices while they hold it.
 Every acquisition and release is a step of its own, interleaved with those of all other sessions.
 */
module UdpResources {
  import opened Wire

  const SESSIONS_PER_USER := 1024

  // ------------------------------------------------------------------ counting

  function CountIf<T>(s: seq<T>, p: T -> bool): nat {
    if s == [] then 0 else (if p(s[0]) then 1 else 0) + CountIf(s[1..], p)
  }

  function One(b: bool): nat { if b then 1 else 0 }

  lemma {:induction false} CountUpdate<T>(s: seq<T>, i: nat, x: T, p: T -> bool)
    requires i < |s|
    ensures CountIf(s[i := x], p) + One(p(s[i])) == CountIf(s, p) + One(p(x))
  {
    var t := s[i := x];
    if i == 0 {
      assert t[1..] == s[1..];
    } else {
      assert t[1..] == s[1..][i - 1 := x];
      CountUpdate(s[1..], i - 1, x, p);
    }
  }

  lemma {:induction false} CountSnoc<T>(s: seq<T>, x: T, p: T -> bool)
    ensures CountIf(s + [x], p) == CountIf(s, p) + One(p(x))
  {
    if s == [] {
      assert s + [x] == [x] && [x][1..] == s;
    } else {
      assert (s + [x])[1..] == s[1..] + [x];
      CountSnoc(s[1..], x, p);
    }
  }

  lemma {:induction false} CountSome<T>(s: seq<T>, i: nat, p: T -> bool)
    requires i < |s| && p(s[i])
    ensures CountIf(s, p) >= 1
  {
    if i > 0 {
      CountSome(s[1..], i - 1, p);
    }
  }

  lemma {:induction false} CountNone<T>(s: seq<T>, p: T -> bool)
    requires forall i :: 0 <= i < |s| ==> !p(s[i])
    ensures CountIf(s, p) == 0
  {
    if s != [] {
      CountNone(s[1..], p);
    }
  }

  // ------------------------------------------------------------------ the quota

  type Quota = map<int, nat>

  function Used(q: Quota, user: int): nat { if user in q then q[user] else 0 }

  function Acquired(q: Quota, user: int): Quota { q[user := Used(q, user) + 1] }

  function Released(q: Quota, user: int): Quota {
    if user !in q then q else if q[user] > 1 then q[user := q[user] - 1] else q - {user}
  }

  class UdpSessionQuota {
    const limit: int
    var byUser: Quota

    constructor (limit: int)
      ensures byUser == map[] && this.limit == limit
    {
      this.limit, byUser := limit, map[];
    }

    function Limit(): int { if limit <= 0 then SESSIONS_PER_USER else limit }

    method Acquire(user: int) returns (ok: bool)
      modifies this
      ensures ok == (Used(old(byUser), user) < if limit <= 0 then 1024 else limit)
      ensures forall u :: Used(byUser, u) == Used(old(byUser), u) + One(ok && u == user)
    {
      var n := if user in byUser then byUser[user] else 0;
      ok := n < Limit();
      if ok {
        byUser := byUser[user := n + 1];
      }
    }

    /** Gives one slot back; giving back what is not held does nothing. */
    method Release(user: int)
      modifies this
      ensures forall u :: Used(byUser, u) == if u == user && Used(old(byUser), u) > 0 then Used(old(byUser), u) - 1 else Used(old(byUser), u)
    {
      if user in byUser {
        if byUser[user] > 1 {
          byUser := byUser[user := byUser[user] - 1];
        } else {
          byUser := byUser - {user};
        }
      }
    }
  }

  // ------------------------------------------------------------------ the devices

  /** For each user, the devices that are online and how many connections each has. */
  type Devices = map<int, map<string, nat>>

  function DevicesOf(d: Devices, user: int): map<string, nat> { if user in d then d[user] else map[] }

  function Connections(d: Devices, user: int, device: string): nat {
    if device in DevicesOf(d, user) then DevicesOf(d, user)[device] else 0
  }

  predicate Admits(d: Devices, user: int, limit: nat, device: string) {
    device in DevicesOf(d, user) || limit == 0 || |DevicesOf(d, user)| < limit
  }

  function Entered(d: Devices, user: int, device: string): Devices {
    d[user := DevicesOf(d, user)[device := Connections(d, user, device) + 1]]
  }

  function Left(d: Devices, user: int, device: string): Devices {
    var mine := DevicesOf(d, user);
    if device !in mine then d
    else if mine[device] > 1 then d[user := mine[device := mine[device] - 1]]
    else if mine - {device} == map[] then d - {user}
    else d[user := mine - {device}]
  }

  /** A device is listed only while it has a connection. */
  ghost predicate Positive(d: Devices) { forall user, device :: device in DevicesOf(d, user) ==> DevicesOf(d, user)[device] > 0 }

  lemma {:induction false} EnterCounts(d: Devices, user: int, device: string, u: int, x: string)
    ensures Connections(Entered(d, user, device), u, x) == Connections(d, u, x) + One(u == user && x == device)
    ensures u != user ==> DevicesOf(Entered(d, user, device), u) == DevicesOf(d, u)
    ensures |DevicesOf(Entered(d, user, device), user)| == |DevicesOf(d, user)| + One(device !in DevicesOf(d, user))
    ensures Positive(d) ==> Positive(Entered(d, user, device))
  {
    var mine, more := DevicesOf(d, user), DevicesOf(Entered(d, user, device), user);
    assert more.Keys == mine.Keys + {device};
    assert |more| == |more.Keys| && |mine| == |mine.Keys|;
    assert forall v :: v != user ==> DevicesOf(Entered(d, user, device), v) == DevicesOf(d, v);
  }

  lemma {:induction false} LeaveCounts(d: Devices, user: int, device: string, u: int, x: string)
    requires Positive(d) && Connections(d, user, device) > 0
    ensures Connections(Left(d, user, device), u, x) + One(u == user && x == device) == Connections(d, u, x)
    ensures |DevicesOf(Left(d, user, device), u)| <= |DevicesOf(d, u)|
    ensures Positive(Left(d, user, device))
  {
    var e := Left(d, user, device);
    assert forall v :: v != user ==> DevicesOf(e, v) == DevicesOf(d, v);
    assert DevicesOf(e, user).Keys <= DevicesOf(d, user).Keys;
    Subset(DevicesOf(e, user).Keys, DevicesOf(d, user).Keys);
    assert |DevicesOf(e, user)| == |DevicesOf(e, user).Keys| && |DevicesOf(d, user)| == |DevicesOf(d, user).Keys|;
  }

  lemma {:induction false} Subset<T>(a: set<T>, b: set<T>)
    requires a <= b
    ensures |a| <= |b|
  {
    assert b == a + (b - a);
  }

  class OnlineDevices {
    var byUser: Devices

    ghost predicate Valid()
      reads this
    {
      Positive(byUser)
    }

    constructor ()
      ensures Valid() && byUser == map[]
    {
      byUser := map[];
    }

    method Enter(user: int, limit: nat, device: string) returns (ok: bool)
      requires Valid()
      modifies this
      ensures Valid() && ok == Admits(old(byUser), user, limit, device)
      ensures ok <==> limit == 0 || Connections(old(byUser), user, device) > 0 || |DevicesOf(old(byUser), user)| < limit
      ensures byUser == if ok then Entered(old(byUser), user, device) else old(byUser)
    {
      EnterCounts(byUser, user, device, user, device);
      var mine := if user in byUser then byUser[user] else map[];
      if device in mine {
        byUser := byUser[user := mine[device := mine[device] + 1]];
        return true;
      }
      if limit > 0 && |mine| >= limit {
        return false;
      }
      byUser := byUser[user := mine[device := 1]];
      return true;
    }

    method Leave(user: int, device: string)
      requires Valid()
      modifies this
      ensures Valid() && byUser == Left(old(byUser), user, device)
    {
      if Connections(byUser, user, device) > 0 {
        LeaveCounts(byUser, user, device, user, device);
      }
      if user !in byUser || device !in byUser[user] {
        return;
      }
      var mine := byUser[user];
      if mine[device] > 1 {
        byUser := byUser[user := mine[device := mine[device] - 1]];
        return;
      }
      var left := mine - {device};
      byUser := if left == map[] then byUser - {user} else byUser[user := left];
    }
  }
}
