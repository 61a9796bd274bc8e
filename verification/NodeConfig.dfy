/**
 A node installing configurations and user lists into the kernel, with every way an install can fail: the
 previous inbound is kept, or put back by the kernel, or put back by the node, or lost.
 */
module NodeConfig {
  import opened Wire
  import opened Roster
  import PortClaims

  /** What the kernel publishes for the node's tag. */
  datatype Inbound = Inbound(config: string, nodeType: string, users: Table)

  /** What becomes of one kernel apply; each is up to code not modelled here. */
  datatype Fate =
    | Rejected                  // refused before the kernel looked at its inbounds
    | Unusable                  // port conflict, adapter or routing cannot be built
    | StartFailed(putBack: bool) // the new one did not start; the old one was started again, or not
    | Serving(loaded: bool)     // up, with the users loaded or not

  /** What the kernel answers. */
  datatype Reply = Installed | UsersNotLoaded | PreviousPreserved | Refused

  datatype Staged = Staged(version: string, users: seq<User>)

  datatype Source = FromKnown | FromStaged | FromCache | FromNothing

  datatype Prepared = Prepared(users: seq<User>, version: string, source: Source)

  datatype Ack = Ack(version: string, ok: bool)

  /** A fresh table loaded with a list agrees with that list. */
  lemma {:induction false} LoadAgrees(users: seq<User>)
    requires Distinct(users) && Proper(Last(users))
    ensures Agree(AddAll(map[], users), Last(users))
  {
    forall u | u in users
      ensures u.id in Last(users) && Last(users)[u.id] == u
    {
      LastIsListed(users, u.id);
      var i :| 0 <= i < |users| && users[i] == u;
      var j :| 0 <= j < |users| && users[j] == Last(users)[u.id];
    }
    forall u: User | u.id in Last(users) && Last(users)[u.id] == u
      ensures u in users
    {
      LastIsListed(users, u.id);
    }
    var t: Table, none: Mirror := map[], map[];
    assert Agree(t, none);
    assert Diff(none, Last(users), [], users, []);
    DiffApplies(t, none, Last(users), [], users, []);
    assert DelAll(t, []) == t;
  }

  /** Loading users a table already has changes nothing. */
  lemma {:induction false} ReloadKeeps(t: Table, users: seq<User>)
    requires forall u :: u in users ==> u.uuid in t
    ensures AddAll(t, users) == t
    decreases |users|
  {
    if users != [] {
      assert users[0] in users;
      assert forall u :: u in users[1..] ==> u in users;
      ReloadKeeps(t, users[1..]);
    }
  }

  /** The list has the mirror's users, but for the rest. */
  ghost predicate Lists(users: seq<User>, known: Mirror, rest: set<int>) {
    && Distinct(users) && Last(users) == known - rest
    && forall u :: u in users ==> u.id in known - rest && known[u.id] == u
  }

  lemma {:induction false} EmptyLists(users: seq<User>, known: Mirror)
    requires Lists(users, known, {})
    ensures users == [] <==> known == map[]
  {
    assert known - {} == known;
    LastEmpty(users);
  }

  lemma {:induction false} LastEmpty(users: seq<User>)
    ensures Last(users) == map[] <==> users == []
  {
    if users != [] {
      assert users[|users| - 1].id in Last(users);
    }
  }

  lemma {:induction false} ListsMore(users: seq<User>, known: Mirror, rest: set<int>, id: int)
    requires Lists(users, known, rest) && id in rest && id in known && known[id].id == id
    ensures Lists(users + [known[id]], known, rest - {id})
  {
    var u, more := known[id], users + [known[id]];
    LastSnoc(more, |users|);
    assert more[..|users|] == users && more[..|users| + 1] == more;
    hide Last;
    assert forall i :: 0 <= i < |users| ==> users[i] in users && more[i] == users[i];
    assert known - (rest - {id}) == (known - rest)[id := u];
  }

  /** The users of a mirror, in whatever order the map gives them. */
  method ListOf(known: Mirror) returns (users: seq<User>)
    requires forall id :: id in known ==> known[id].id == id
    ensures Lists(users, known, {})
  {
    users := [];
    var rest := known.Keys;
    assert Last([]) == map[] && known - known.Keys == map[];
    while rest != {}
      invariant rest <= known.Keys && Lists(users, known, rest)
      decreases rest
    {
      var id := Pick(rest);
      hide Lists;
      ListsMore(users, known, rest, id);
      users, rest := users + [known[id]], rest - {id};
    }
  }

  class Node {
    var started: bool
    var activeConfig: Option<string>
    var nodeType: string
    var known: Mirror
    var userVersion: string
    var staged: Option<Staged>
    var pendingAck: Option<Ack>

    /** The kernel's side. */
    var kernel: Option<Inbound>

    /**
     Since the last install no list had two users with one credential, and no roster batch failed halfway. The
     next install starts from a fresh table, so that it makes up for either.
     */
    ghost var intact: bool

    ghost predicate Valid()
      reads this
    {
      && (forall id :: id in known ==> known[id].id == id && known[id].uuid != "")
      && (intact ==> Proper(known))
      && (if started then
            && kernel.Some? && activeConfig == Some(kernel.value.config) && nodeType == kernel.value.nodeType
            && (intact ==> Agree(kernel.value.users, known))
          else known == map[] && userVersion == "")
    }

    constructor ()
      ensures Valid() && intact && !started
    {
      started, activeConfig, nodeType, known, userVersion, staged, pendingAck, kernel := false, None, "", map[], "", None, None, None;
      intact := true;
    }

    // ---------------------------------------------------------------- the kernel

    /** Applies an inbound; on any failure but the last two kinds the old one serves on as it was. */
    method ApplyInbound(config: string, nodeType: string, users: seq<User>, fate: Fate) returns (reply: Reply)
      modifies this`kernel
      ensures match fate
              case Rejected => reply == Refused && kernel == old(kernel)
              case Unusable => reply == (if kernel.Some? then PreviousPreserved else Refused) && kernel == old(kernel)
              case StartFailed(putBack) =>
                if old(kernel).Some? && putBack
                then reply == PreviousPreserved && kernel == Some(old(kernel).value.(users := map[]))
                else reply == Refused && kernel == None
              case Serving(loaded) =>
                && reply == (if loaded || users == [] then Installed else UsersNotLoaded)
                && kernel == Some(Inbound(config, nodeType, if reply == Installed then AddAll(map[], users) else map[]))
    {
      match fate
      case Rejected => reply := Refused;
      case Unusable => reply := if kernel.Some? then PreviousPreserved else Refused;
      case StartFailed(putBack) =>
        if kernel.Some? && putBack {
          kernel, reply := Some(kernel.value.(users := map[])), PreviousPreserved;
        } else {
          kernel, reply := None, Refused;
        }
      case Serving(loaded) =>
        reply := if loaded || users == [] then Installed else UsersNotLoaded;
        kernel := Some(Inbound(config, nodeType, if reply == Installed then AddAll(map[], users) else map[]));
    }

    /**
     The apply as the kernel's core runs it. The node's idea of what is published and the core's published inbounds
     stay together, and the node is told that an inbound serves exactly when one does.
     */
    method ApplyThroughCore(core: PortClaims.NativeCore, tag: string, keys: seq<PortClaims.PortKey>,
                            config: string, nodeType: string, users: seq<User>,
                            accepted: bool, builds: bool, starts: bool, restores: bool, loaded: bool) returns (reply: Reply)
      requires core.Valid() && (kernel.Some? <==> tag in core.inbounds)
      modifies this`kernel, core
      ensures core.Valid() && (kernel.Some? <==> tag in core.inbounds)
      ensures reply.Installed? || reply.UsersNotLoaded? <==>
              accepted && builds && starts && !PortClaims.Conflicts(old(core.ports), keys, tag)
      ensures reply.PreviousPreserved? <==>
              && accepted && tag in old(core.inbounds)
              && (PortClaims.Conflicts(old(core.ports), keys, tag) || !builds || (!starts && restores))
      ensures reply.Installed? || reply.UsersNotLoaded? ==> core.inbounds == old(core.inbounds)[tag := keys]
      ensures reply.PreviousPreserved? ==> core.inbounds == old(core.inbounds) && tag in core.inbounds && core.ports == old(core.ports)
      ensures reply.Refused? ==> core.inbounds == old(core.inbounds) || tag !in core.inbounds
      ensures kernel.Some? && kernel != old(kernel) && !reply.PreviousPreserved? ==> kernel.value.config == config
    {
      hide PortClaims.Good;
      if !accepted {
        reply := ApplyInbound(config, nodeType, users, Rejected);
        return;
      }
      var outcome := core.ApplyInbound(tag, keys, builds, starts, restores);
      var fate := match outcome
        case Refused => Unusable
        case Published => Serving(loaded)
        case Restored => StartFailed(true)
        case Lost => StartFailed(false);
      reply := ApplyInbound(config, nodeType, users, fate);
    }

    method AddKernelUsers(users: seq<User>, ok: bool) returns (added: bool)
      modifies this`kernel
      ensures added == (ok && old(kernel).Some?)
      ensures kernel == if added then Some(old(kernel).value.(users := AddAll(old(kernel).value.users, users))) else old(kernel)
    {
      added := ok && kernel.Some?;
      if added {
        kernel := Some(kernel.value.(users := AddAll(kernel.value.users, users)));
      }
    }

    // ---------------------------------------------------------------- the mirror

    method ResetUserMirror()
      modifies this`known, this`userVersion, this`pendingAck
      ensures known == map[] && userVersion == ""
      ensures pendingAck == if old(userVersion) != "" then Some(Ack(old(userVersion), false)) else old(pendingAck)
    {
      if userVersion != "" {
        pendingAck := Some(Ack(userVersion, false));
      }
      known, userVersion := map[], "";
    }

    method MarkInboundLost()
      modifies this`started, this`known, this`userVersion, this`pendingAck
      ensures Valid() && !started && known == map[] && userVersion == ""
      ensures pendingAck == if old(userVersion) != "" then Some(Ack(old(userVersion), false)) else old(pendingAck)
    {
      started := false;
      ResetUserMirror();
    }

    /** The list to install: what the kernel has, else what arrived before the inbound, else the cache. */
    method PrepareInstallUsers(cache: Option<Staged>) returns (p: Prepared)
      requires Valid()
      ensures Distinct(p.users) && forall id :: id in Last(p.users) ==> Last(p.users)[id].id == id && Last(p.users)[id].uuid != ""
      ensures known != map[] ==> Last(p.users) == known && p.version == userVersion && p.source == FromKnown
      ensures known == map[] && staged.Some? ==>
                Last(p.users) == Want(staged.value.users) && p.version == staged.value.version && p.source == FromStaged
      ensures known == map[] && staged.None? && cache.Some? ==>
                Last(p.users) == Want(cache.value.users) && p.version == cache.value.version && p.source == FromCache
      ensures known == map[] && staged.None? && cache.None? ==> p == Prepared([], "", FromNothing)
    {
      if known != map[] {
        var users := ListOf(known);
        assert known - {} == known;
        return Prepared(users, userVersion, FromKnown);
      }
      if staged.Some? || cache.Some? {
        var source := if staged.Some? then staged.value else cache.value;
        var users := Normalize(source.users);
        forall id | id in Last(users)
          ensures Last(users)[id].id == id && Last(users)[id].uuid != ""
        {
          LastIsListed(users, id);
        }
        return Prepared(users, source.version, if staged.Some? then FromStaged else FromCache);
      }
      return Prepared([], "", FromNothing);
    }

    /** After an install the mirror is the list that went in with it, or empty if that did not load. */
    method AdoptInstalledUsers(p: Prepared, failed: bool)
      modifies this`known, this`userVersion, this`pendingAck, this`staged
      ensures known == if failed then map[] else Last(p.users)
      ensures userVersion == if failed then "" else p.version
      ensures failed ==> staged == None
      ensures failed ==> pendingAck == if old(userVersion) != "" then Some(Ack(old(userVersion), false))
                                       else if old(pendingAck).None? && p.version != "" then Some(Ack(p.version, false))
                                       else old(pendingAck)
      ensures !failed && p.source == FromStaged ==> staged == None && pendingAck == Some(Ack(p.version, true))
      ensures !failed && p.source != FromStaged ==> staged == old(staged) && pendingAck == old(pendingAck)
    {
      if failed {
        ResetUserMirror();
        if pendingAck.None? && p.version != "" {
          pendingAck := Some(Ack(p.version, false));
        }
        staged := None;
        return;
      }
      known, userVersion := MirrorOf(p.users), p.version;
      if p.source == FromStaged {
        staged, pendingAck := None, Some(Ack(p.version, true));
      }
    }

    function MirrorOf(users: seq<User>): Mirror { Last(users) }

    // ---------------------------------------------------------------- installing a configuration

    /** Puts the users the kernel had back after the previous inbound survived or was reinstalled. */
    method RestoreUsers(users: seq<User>, ok: bool) returns (restored: bool)
      requires kernel.Some? && Lists(users, known, {})
      requires intact ==> Proper(known) && (kernel.value.users == map[] || Agree(kernel.value.users, known))
      modifies this`kernel
      ensures restored <==> users == [] || ok
      ensures restored ==> kernel.Some? && kernel.value.(users := map[]) == old(kernel).value.(users := map[])
      ensures restored && intact ==> Agree(kernel.value.users, known)
    {
      restored := true;
      assert known - {} == known;
      if |users| > 0 {
        restored := AddKernelUsers(users, ok);
      }
      if restored && intact {
        ReloadAgrees(old(kernel).value.users, users);
      }
    }

    /** The previous inbound serves on; the kernel may have had to start it afresh, without users. */
    method KeepPrevious(users: seq<User>, ok: bool)
      requires Lists(users, known, {}) && Survived()
      modifies this`kernel, this`started, this`known, this`userVersion, this`pendingAck
      ensures Valid()
      ensures started <==> old(started) && (old(known) == map[] || ok)
      ensures started ==> (known, userVersion, pendingAck) == (old(known), old(userVersion), old(pendingAck))
      ensures !started && old(userVersion) != "" ==> pendingAck == Some(Ack(old(userVersion), false))
    {
      EmptyLists(users, known);
      assert Agree(map[], map[]);
      assert users == [] && started && intact ==> Agree(kernel.value.users, known);
      hide Agree, Proper;
      if |users| > 0 {
        assert users[0] in users;
        var restored := RestoreUsers(users, ok);
        if !restored {
          MarkInboundLost();
        }
      }
    }

    ghost predicate Believes()
      reads this
    {
      (forall id :: id in known ==> known[id].id == id && known[id].uuid != "") && (intact ==> Proper(known))
    }

    ghost predicate Survived()
      reads this
    {
      && Believes()
      && if started then
           && kernel.Some? && activeConfig == Some(kernel.value.config) && nodeType == kernel.value.nodeType
           && (intact ==> kernel.value.users == map[] || Agree(kernel.value.users, known))
         else known == map[] && userVersion == ""
    }

    /** The kernel gave up on both; the node installs the configuration it had, and then the users it had. */
    method PutPreviousBack(users: seq<User>, fate: Fate, ok: bool)
      requires Lists(users, known, {}) && Believes() && activeConfig.Some? && (!started ==> known == map[] && userVersion == "")
      modifies this`kernel, this`started, this`known, this`userVersion, this`pendingAck
      ensures Valid()
      ensures started <==> fate.Serving? && (old(known) == map[] || ok)
      ensures started ==> (known, userVersion, pendingAck) == (old(known), old(userVersion), old(pendingAck))
      ensures !started && old(userVersion) != "" ==> pendingAck == Some(Ack(old(userVersion), false))
    {
      EmptyLists(users, known);
      hide Agree, Proper, Lists;
      var again := ApplyInbound(activeConfig.value, nodeType, [], fate);
      if !again.Installed? {
        MarkInboundLost();
        return;
      }
      var restored := RestoreUsers(users, ok);
      if !restored {
        MarkInboundLost();
        return;
      }
      started := true;
    }

    /**
     One configuration. Whatever the fates of the kernel's applies and of putting users back, a node that is
     started afterwards serves its active configuration with exactly the users it believes are installed.
     */
    method ApplyConfigOnce(config: string, newType: string, cache: Option<Staged>, first: Fate, second: Fate, addOk: bool) returns (ok: bool)
      requires Valid()
      modifies this
      ensures Valid()
      ensures intact == if ok then Proper(known) else old(intact)
      ensures ok <==> first.Serving?
      ensures ok ==> started && activeConfig == Some(config) && nodeType == newType
      // The list that goes in with the inbound: the one the node has, else the staged one, else the cached one.
      ensures ok && first.loaded && old(known) != map[] ==>
                (known, userVersion, staged, pendingAck) == (old(known), old(userVersion), old(staged), old(pendingAck))
      ensures ok && first.loaded && old(known) == map[] && old(staged).Some? ==>
                && known == Want(old(staged).value.users) && userVersion == old(staged).value.version
                && staged == None && pendingAck == Some(Ack(userVersion, true))
      ensures ok && first.loaded && old(known) == map[] && old(staged).None? ==>
                && (known, userVersion) == (if cache.Some? then (Want(cache.value.users), cache.value.version) else (map[], ""))
                && staged == None && pendingAck == old(pendingAck)
      // If it did not load, the node starts over without users and says so.
      ensures ok && !first.loaded ==> known == map[]
      ensures ok && !first.loaded && old(known) != map[] ==>
                && userVersion == "" && staged == None
                && (old(userVersion) != "" ==> pendingAck == Some(Ack(old(userVersion), false)))
      ensures ok && !first.loaded && old(known) == map[] && old(staged).Some? && Want(old(staged).value.users) != map[] ==>
                && userVersion == "" && staged == None
                && (old(pendingAck).None? && old(userVersion) == "" && old(staged).value.version != "" ==>
                      pendingAck == Some(Ack(old(staged).value.version, false)))
      ensures ok && !first.loaded && old(known) == map[] && old(staged).None? && cache.Some? && Want(cache.value.users) != map[] ==>
                && userVersion == ""
                && (old(pendingAck).None? && old(userVersion) == "" && cache.value.version != "" ==>
                      pendingAck == Some(Ack(cache.value.version, false)))
      // A failed apply: kept by the kernel or put back by the node, the previous inbound serves on with its users.
      ensures !ok && old(kernel).Some? && (first.Unusable? || (first.StartFailed? && first.putBack)) ==>
                (started <==> old(started) && (old(known) == map[] || addOk))
      ensures !ok && !(old(kernel).Some? && (first.Unusable? || (first.StartFailed? && first.putBack))) ==>
                (started <==> old(activeConfig).Some? && second.Serving? && (old(known) == map[] || addOk))
      ensures !ok && started ==> pendingAck == old(pendingAck)
      ensures !ok && !started && old(userVersion) != "" ==> pendingAck == Some(Ack(old(userVersion), false))
      ensures !ok ==> (activeConfig, nodeType, staged) == (old(activeConfig), old(nodeType), old(staged))
      ensures !ok && started ==> (known, userVersion) == (old(known), old(userVersion))
    {
      hide Lists, Agree, Proper, Want, Last;
      var previousUsers := ListOf(known);
      var prepared := PrepareInstallUsers(cache);
      LastEmpty(prepared.users);
      var reply := ApplyInbound(config, newType, prepared.users, first);
      ok := false;
      if reply.PreviousPreserved? {
        KeepPrevious(previousUsers, addOk);
      } else if reply.Refused? {
        if activeConfig.Some? {
          PutPreviousBack(previousUsers, second, addOk);
        }
      } else {
        Adopt(config, newType, prepared, reply.UsersNotLoaded?);
        ok := true;
      }
    }

    /** The new inbound serves. */
    method Adopt(config: string, newType: string, p: Prepared, failed: bool)
      requires kernel == Some(Inbound(config, newType, if failed then map[] else AddAll(map[], p.users)))
      requires Distinct(p.users) && forall id :: id in Last(p.users) ==> Last(p.users)[id].id == id && Last(p.users)[id].uuid != ""
      modifies this
      ensures Valid() && started && activeConfig == Some(config) && nodeType == newType
      ensures intact == Proper(known)
      ensures known == if failed then map[] else Last(p.users)
      ensures userVersion == if failed then "" else p.version
      ensures failed ==> staged == None
      ensures failed ==> pendingAck == if old(userVersion) != "" then Some(Ack(old(userVersion), false))
                                       else if old(pendingAck).None? && p.version != "" then Some(Ack(p.version, false))
                                       else old(pendingAck)
      ensures !failed && p.source == FromStaged ==> staged == None && pendingAck == Some(Ack(p.version, true))
      ensures !failed && p.source != FromStaged ==> staged == old(staged) && pendingAck == old(pendingAck)
    {
      activeConfig, nodeType := Some(config), newType;
      AdoptInstalledUsers(p, failed);
      started := true;
      intact := Proper(known);
      if failed {
        assert Agree(map[], map[]);
      } else if intact {
        LoadAgrees(p.users);
      }
    }

    // ---------------------------------------------------------------- user lists

    /** Deletes first, then adds, then updates; each call may fail and leave the rest undone. */
    method ApplyKernelUsers(removed: seq<string>, added: seq<User>, updated: seq<User>, delOk: bool, addOk: bool, upsertOk: bool)
      returns (ok: bool)
      modifies this`kernel
      ensures old(kernel).None? ==> kernel.None?
      ensures old(kernel).Some? ==> kernel.Some? && kernel.value.(users := map[]) == old(kernel).value.(users := map[])
      ensures ok && old(kernel).Some? ==> kernel.value.users == Applied(old(kernel).value.users, removed, added, updated)
      ensures delOk && addOk && upsertOk && old(kernel).Some? ==> ok
    {
      ok := true;
      if kernel.None? {
        return removed == [] && added == [] && updated == [];
      }
      assert DelAll(kernel.value.users, []) == kernel.value.users;
      if |removed| > 0 {
        if !delOk {
          return false;
        }
        kernel := Some(kernel.value.(users := DelAll(kernel.value.users, removed)));
      }
      if |added| > 0 {
        if !addOk {
          return false;
        }
        kernel := Some(kernel.value.(users := AddAll(kernel.value.users, added)));
      }
      if |updated| > 0 {
        if !upsertOk {
          return false;
        }
        kernel := Some(kernel.value.(users := UpsertAll(kernel.value.users, updated)));
      }
    }

    /** A full list. */
    method ApplyUsers(users: seq<User>, delOk: bool, addOk: bool, upsertOk: bool) returns (ok: bool)
      requires Valid() && started
      modifies this`kernel, this`known, this`intact
      ensures Valid()
      ensures known == if ok then Want(users) else old(known)
      ensures intact == (old(intact) && ok && Proper(Want(users)))
      ensures delOk && addOk && upsertOk ==> ok
    {
      var want := WantedBy(users);
      var removed, added, updated := DiffLists(known, want);
      ok := ApplyKernelUsers(removed, added, updated, delOk, addOk, upsertOk);
      if ok && intact && Proper(want) {
        DiffApplies(old(kernel).value.users, known, want, removed, added, updated);
      }
      intact := intact && ok && Proper(want);
      if ok {
        known := want;
      }
    }

    /** A delta, on top of the list the node has. */
    method ApplyUserDelta(upserted: seq<User>, removedIds: seq<int>, delOk: bool, addOk: bool, upsertOk: bool) returns (ok: bool)
      requires Valid() && started
      modifies this`kernel, this`known, this`intact
      ensures Valid()
      ensures var patched := Patched(old(known), Last(Gone(removedIds) + upserted));
              && known == (if ok then patched else old(known))
              && intact == (old(intact) && ok && Proper(patched))
      ensures delOk && addOk && upsertOk ==> ok
    {
      hide Agree, Diff, Last, Gone, Applied, Patched, Proper;
      var next := DeltaTargets(upserted, removedIds);
      var dropped, added, updated := DeltaLists(known, next);
      ghost var want := Patched(known, Last(next));
      ok := ApplyKernelUsers(dropped, added, updated, delOk, addOk, upsertOk);
      if ok && intact && Proper(want) {
        DiffApplies(old(kernel).value.users, known, want, dropped, added, updated);
      }
      intact := intact && ok && Proper(want);
      if ok {
        PatchedListed(known, next);
        known := PatchMirror(known, next);
      }
    }

    /** A full list from the panel: installed now, or kept until the inbound is up. */
    method OnUsersFull(version: string, users: seq<User>, delOk: bool, addOk: bool, upsertOk: bool) returns (ack: Option<Ack>)
      requires Valid()
      modifies this
      ensures Valid() && started == old(started)
      ensures !started ==> staged.Some? && staged.value.version == version && Want(staged.value.users) == Want(users) && ack == None
      ensures started ==> ack.Some? && ack.value.version == version && userVersion == (if ack.value.ok then version else "")
      ensures intact == (old(intact) && (started ==> ack.value.ok && Proper(Want(users))))
      ensures started && ack.value.ok ==> known == Want(users) && staged == None
      ensures started && delOk && addOk && upsertOk ==> ack.value.ok
    {
      var list := Normalize(users);
      NormalizedWants(list);
      if !started {
        staged := Some(Staged(version, list));
        return None;
      }
      var ok := ApplyUsers(list, delOk, addOk, upsertOk);
      if ok {
        userVersion, staged := version, None;
      } else {
        userVersion := "";
      }
      return Some(Ack(version, ok));
    }

    /** A delta from the panel, taken only on exactly the version it starts from. */
    method OnUsersDelta(fromVersion: string, toVersion: string, upserted: seq<User>, removedIds: seq<int>,
                        delOk: bool, addOk: bool, upsertOk: bool) returns (ack: Ack)
      requires Valid()
      modifies this
      ensures Valid() && started == old(started) && ack.version == toVersion
      ensures var applies := started && old(userVersion) != "" && fromVersion == old(userVersion);
              && (!applies ==> !ack.ok && (known, userVersion, kernel) == (old(known), old(userVersion), old(kernel)))
              && (applies ==> userVersion == if ack.ok then toVersion else "")
              && (applies && ack.ok ==> known == Patched(old(known), Last(Gone(removedIds) + upserted)))
              && (applies && delOk && addOk && upsertOk ==> ack.ok)
              && intact == (old(intact) && (applies ==> ack.ok && Proper(Patched(old(known), Last(Gone(removedIds) + upserted)))))
    {
      if !started || userVersion == "" || fromVersion != userVersion {
        return Ack(toVersion, false);
      }
      var ok := ApplyUserDelta(upserted, removedIds, delOk, addOk, upsertOk);
      userVersion := if ok then toVersion else "";
      return Ack(toVersion, ok);
    }
  }

  lemma {:induction false} PatchedListed(known: Mirror, next: seq<User>)
    requires forall id :: id in known ==> known[id].id == id && known[id].uuid != ""
    ensures var want := Patched(known, Last(next)); forall id :: id in want ==> want[id].id == id && want[id].uuid != ""
  {
    forall id | id in Last(next)
      ensures Last(next)[id].id == id
    {
      LastIsListed(next, id);
    }
  }

  /** The list as a map, records without a credential left out. */
  method WantedBy(users: seq<User>) returns (want: Mirror)
    ensures want == Want(users) && forall id :: id in want ==> want[id].id == id && want[id].uuid != ""
  {
    want := map[];
    for i := 0 to |users|
      invariant want == Want(users[..i]) && forall id :: id in want ==> want[id].id == id && want[id].uuid != ""
    {
      assert users[..i + 1][..i] == users[..i];
      if users[i].uuid != "" {
        want := want[users[i].id := users[i]];
      }
    }
    assert users[..|users|] == users;
  }

  /** A list without empty credentials wants its last records. */
  lemma {:induction false} NormalizedWants(users: seq<User>)
    requires forall u :: u in users ==> u.uuid != ""
    ensures Want(users) == Last(users)
  {
    if users != [] {
      assert users == users[..|users| - 1] + [users[|users| - 1]];
      NormalizedWants(users[..|users| - 1]);
    }
  }

  lemma {:induction false} ReloadAgrees(t: Table, users: seq<User>)
    requires Distinct(users) && Proper(Last(users))
    requires forall u :: u in users ==> u.id in Last(users) && Last(users)[u.id] == u
    requires t == map[] || Agree(t, Last(users))
    ensures Agree(AddAll(t, users), Last(users))
  {
    if t == map[] {
      LoadAgrees(users);
    } else {
      ReloadKeeps(t, users);
    }
  }
}
