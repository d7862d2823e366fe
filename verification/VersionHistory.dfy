/** Saved strategies and their version history.

    A saved strategy is a record whose settings live in a separate dictionary, which records
    may share.  Updating settings changes the dictionary in place; taking a version snapshot
    copies the record but not the dictionary; reading a strategy back and saving it copies both. */
module VersionHistory {
  import opened Options
  import opened StrategyDsl

  const MAX_VERSIONS := 50

  type Ref = nat
  type Settings = map<string, string>

  datatype Record = Record(
    name: string, description: string, author: string, owner: Option<string>, status: string,
    nodes: seq<Node>, edges: seq<Edge>, settings: Ref, versionNumber: int)

  datatype Version = Version(number: int, data: Record)

  datatype Store = Store(
    strategies: map<Id, Record>, versions: map<Id, seq<Version>>, settings: map<Ref, Settings>, next: Ref)

  function EmptyStore(): Store {
    Store(map[], map[], map[], 0)
  }

  // ----- who may see a strategy

  predicate HexDigit(c: char) {
    '0' <= c <= '9' || 'a' <= c <= 'f' || 'A' <= c <= 'F'
  }

  predicate LooksLikeUuid(s: string) {
    |s| == 36 && forall k :: 0 <= k < 36 ==> if k in {8, 13, 18, 23} then s[k] == '-' else HexDigit(s[k])
  }

  function OwnerOf(r: Record): Option<string> {
    if r.owner.Some? && r.owner.value != "" then r.owner else if LooksLikeUuid(r.author) then Some(r.author) else None
  }

  /** A caller without a tenant sees everything; a strategy without an owner is seen by no tenant. */
  predicate VisibleTo(r: Record, caller: Option<string>) {
    caller.None? || OwnerOf(r) == caller
  }

  /** Whether a stored record can be read back as a strategy: one saved with no owner at all
      cannot, because a strategy's owner is a string. */
  predicate Loads(r: Record) {
    r.owner.Some?
  }

  predicate Owns(s: Store, id: Id, caller: Option<string>) {
    id in s.strategies && VisibleTo(s.strategies[id], caller)
  }

  /** What a call that reads a strategy back comes to. */
  datatype Lookup<T> = Found(value: T) | Missing | Raised

  function ReadBack(r: Record): Lookup<Record> {
    if Loads(r) then Found(r) else Raised
  }

  function Get(s: Store, id: Id, caller: Option<string>): Lookup<Record> {
    if Owns(s, id, caller) then ReadBack(s.strategies[id]) else Missing
  }

  // ----- operations

  function At(s: Store, ref: Ref): Settings {
    if ref in s.settings then s.settings[ref] else map[]
  }

  /** The record with a dictionary of its own. */
  function Fresh(s: Store, r: Record): Record {
    r.(settings := s.next)
  }

  function WithCopy(s: Store, contents: Settings): Store {
    s.(settings := s.settings[s.next := contents], next := s.next + 1)
  }

  /** What a new strategy starts from: a template, or a name and a description. */
  datatype Draft = Draft(
    name: string, description: string, author: string, nodes: seq<Node>, edges: seq<Edge>, settings: Settings)

  /** Only the stored strategy is given its owner, which may be none; the first version has the
      empty one. */
  function Create(s: Store, id: Id, d: Draft, owner: Option<string>): Store {
    var live := Record(d.name, d.description, d.author, owner, "draft", d.nodes, d.edges, s.next, 1);
    var t := WithCopy(s, d.settings);
    var first := Version(1, Fresh(t, live).(owner := Some("")));
    WithCopy(t, d.settings).(strategies := t.strategies[id := live], versions := t.versions[id := [first]])
  }

  /** Fields left out stay as they are.  The version number cannot be set. */
  datatype Updates = Updates(
    name: Option<string>, description: Option<string>, status: Option<string>,
    nodes: Option<seq<Node>>, edges: Option<seq<Edge>>, settings: Option<Settings>)

  predicate TakesVersion(u: Updates) {
    u.name.Some? || u.nodes.Some? || u.edges.Some? || u.settings.Some?
  }

  function Merged(r: Record, u: Updates): Record {
    r.(name := u.name.GetOr(r.name), description := u.description.GetOr(r.description),
       status := u.status.GetOr(r.status),
       nodes := u.nodes.GetOr(r.nodes), edges := u.edges.GetOr(r.edges))
  }

  function LastFew(vs: seq<Version>): seq<Version> {
    if |vs| > MAX_VERSIONS then vs[|vs| - MAX_VERSIONS..] else vs
  }

  function VersionsOf(s: Store, id: Id): seq<Version> {
    if id in s.versions then s.versions[id] else []
  }

  function Update(s: Store, id: Id, u: Updates, caller: Option<string>): Store {
    if !Owns(s, id, caller) then s
    else
      var live := s.strategies[id];
      var merged := Merged(live, u).(versionNumber := live.versionNumber + if TakesVersion(u) then 1 else 0);
      s.(settings := if u.settings.Some? then s.settings[live.settings := At(s, live.settings) + u.settings.value]
                     else s.settings,
         strategies := s.strategies[id := merged],
         versions := if TakesVersion(u)
                     then s.versions[id := LastFew(VersionsOf(s, id) + [Version(merged.versionNumber, merged)])]
                     else s.versions)
  }

  function Find(vs: seq<Version>, number: int): Option<Version> {
    if vs == [] then None else if vs[0].number == number then Some(vs[0]) else Find(vs[1..], number)
  }

  function Highest(vs: seq<Version>): int {
    if vs == [] then 0
    else if |vs| == 1 || vs[|vs|-1].number >= Highest(vs[..|vs|-1]) then vs[|vs|-1].number
    else Highest(vs[..|vs|-1])
  }

  function Target(s: Store, id: Id, number: int, caller: Option<string>): Lookup<Record> {
    if !Owns(s, id, caller) || Find(VersionsOf(s, id), number).None? then Missing
    else ReadBack(Find(VersionsOf(s, id), number).value.data)
  }

  /** Saves a copy of an old version as a new one, at the end, without cutting the history. */
  function Rollback(s: Store, id: Id, number: int, caller: Option<string>): Store {
    if !Target(s, id, number, caller).Found? then s
    else
      var vs := VersionsOf(s, id);
      var target := Target(s, id, number, caller).value;
      var live := Fresh(s, target).(versionNumber := Highest(vs) + 1);
      var t := WithCopy(s, At(s, target.settings));
      var saved := Version(live.versionNumber, Fresh(t, live));
      WithCopy(t, At(s, target.settings))
        .(strategies := t.strategies[id := live], versions := t.versions[id := vs + [saved]])
  }

  /** Publishing, archiving and every other change of status. */
  function SetStatus(s: Store, id: Id, status: string, caller: Option<string>): Store {
    if !Get(s, id, caller).Found? then s
    else
      var live := s.strategies[id];
      WithCopy(s, At(s, live.settings)).(strategies := s.strategies[id := Fresh(s, live).(status := status)])
  }

  function Clone(s: Store, id: Id, newId: Id, caller: Option<string>): Store {
    if !Get(s, id, caller).Found? then s
    else
      var live := s.strategies[id];
      var copy := Fresh(s, live).(name := live.name + " (Copy)", status := "draft", versionNumber := 1);
      var t := WithCopy(s, At(s, live.settings));
      var first := Version(1, Fresh(t, copy));
      WithCopy(t, At(s, live.settings))
        .(strategies := t.strategies[newId := copy], versions := t.versions[newId := [first]])
  }

  function Delete(s: Store, id: Id, caller: Option<string>): Store {
    if !Owns(s, id, caller) then s
    else s.(strategies := s.strategies - {id}, versions := s.versions - {id})
  }

  datatype Op =
    | DoCreate(id: Id, draft: Draft, owner: Option<string>)
    | DoUpdate(id: Id, updates: Updates, caller: Option<string>)
    | DoRollback(id: Id, number: int, caller: Option<string>)
    | DoSetStatus(id: Id, status: string, caller: Option<string>)
    | DoClone(id: Id, newId: Id, caller: Option<string>)
    | DoDelete(id: Id, caller: Option<string>)

  function Do(s: Store, op: Op): Store {
    match op
    case DoCreate(id, draft, owner) => Create(s, id, draft, owner)
    case DoUpdate(id, updates, caller) => Update(s, id, updates, caller)
    case DoRollback(id, number, caller) => Rollback(s, id, number, caller)
    case DoSetStatus(id, status, caller) => SetStatus(s, id, status, caller)
    case DoClone(id, newId, caller) => Clone(s, id, newId, caller)
    case DoDelete(id, caller) => Delete(s, id, caller)
  }

  function DoAll(s: Store, ops: seq<Op>): Store {
    if ops == [] then s else Do(DoAll(s, ops[..|ops|-1]), ops[|ops|-1])
  }

  // ----- the history

  ghost predicate Increasing(vs: seq<Version>) {
    forall i, j :: 0 <= i < j < |vs| ==> vs[i].number < vs[j].number
  }

  /** Versions are numbered upwards and end at the strategy's current number. */
  ghost predicate Ordered(vs: seq<Version>, current: int) {
    vs != [] && Increasing(vs) && vs[|vs|-1].number == current
      && forall k :: 0 <= k < |vs| ==> vs[k].data.versionNumber == vs[k].number
  }

  /** Every dictionary in use has been allocated, and strategies never share one. */
  ghost predicate InUse(s: Store, id: Id, ref: Ref) {
    (id in s.strategies && s.strategies[id].settings == ref)
    || (id in s.versions && exists k :: 0 <= k < |s.versions[id]| && s.versions[id][k].data.settings == ref)
  }

  ghost predicate Allocated(s: Store) {
    && (forall ref :: ref in s.settings ==> ref < s.next)
    && (forall id, ref :: InUse(s, id, ref) ==> ref in s.settings)
  }

  ghost predicate Apart(s: Store) {
    forall id, other, ref :: InUse(s, id, ref) && InUse(s, other, ref) ==> id == other
  }

  ghost predicate Sound(s: Store) {
    && s.strategies.Keys == s.versions.Keys
    && (forall id :: id in s.versions ==> Ordered(s.versions[id], s.strategies[id].versionNumber))
    && Allocated(s) && Apart(s)
  }

  /** An operation that rewrites one strategy, using dictionaries that were its own or are new. */
  ghost predicate Rewrites(s: Store, t: Store, id: Id) {
    && (forall other :: other != id ==>
          && (other in t.strategies <==> other in s.strategies) && (other in t.versions <==> other in s.versions)
          && (other in s.strategies ==> t.strategies[other] == s.strategies[other])
          && (other in s.versions ==> t.versions[other] == s.versions[other]))
    && (forall ref: Ref :: InUse(t, id, ref) ==> InUse(s, id, ref) || (s.next <= ref < t.next && ref in t.settings))
    && s.settings.Keys <= t.settings.Keys && s.next <= t.next
    && (forall ref: Ref :: ref in t.settings ==> ref < t.next)
  }

  lemma RewritesKeepsApart(s: Store, t: Store, id: Id)
    requires Allocated(s) && Apart(s) && Rewrites(s, t, id)
    ensures Allocated(t) && Apart(t)
  {
    forall other, ref | InUse(t, other, ref) ensures ref in t.settings && (other == id || InUse(s, other, ref)) {
      if other != id {
        assert InUse(s, other, ref);
      }
    }
    forall a, b, ref | InUse(t, a, ref) && InUse(t, b, ref) ensures a == b {
      if a != id && b != id {
        assert InUse(s, a, ref) && InUse(s, b, ref);
      }
    }
  }

  lemma RewritesKeepsSound(s: Store, t: Store, id: Id)
    requires Sound(s) && Rewrites(s, t, id)
    requires id in t.strategies <==> id in t.versions
    requires id in t.versions ==> Ordered(t.versions[id], t.strategies[id].versionNumber)
    ensures Sound(t)
  {
    RewritesKeepsApart(s, t, id);
    forall other ensures other in t.strategies <==> other in t.versions {
      assert other in s.strategies <==> other in s.versions;
    }
  }

  lemma OrderedGrows(vs: seq<Version>, current: int, v: Version)
    requires Ordered(vs, current) && v.number > current && v.data.versionNumber == v.number
    ensures Ordered(vs + [v], v.number)
  {
  }

  lemma OrderedCut(vs: seq<Version>, current: int)
    requires Ordered(vs, current)
    ensures Ordered(LastFew(vs), current) && |LastFew(vs)| <= MAX_VERSIONS
  {
  }

  lemma {:induction false} HighestIsLast(vs: seq<Version>)
    requires vs != [] && Increasing(vs)
    ensures Highest(vs) == vs[|vs|-1].number
  {
    if |vs| > 1 {
      HighestIsLast(vs[..|vs|-1]);
    }
  }

  lemma {:induction false} FindIsThere(vs: seq<Version>, number: int)
    ensures match Find(vs, number)
            case Some(v) => v in vs && v.number == number
            case None => forall k :: 0 <= k < |vs| ==> vs[k].number != number
  {
    if vs != [] && vs[0].number != number {
      FindIsThere(vs[1..], number);
      if Find(vs, number).None? {
        forall k | 0 <= k < |vs| ensures vs[k].number != number {
          assert k > 0 ==> vs[k] == vs[1..][k-1];
        }
      }
    }
  }

  lemma CreateIsSound(s: Store, id: Id, d: Draft, owner: Option<string>)
    requires Sound(s)
    ensures Sound(Create(s, id, d, owner))
  {
    RewritesKeepsSound(s, Create(s, id, d, owner), id);
  }

  lemma UpdateIsSound(s: Store, id: Id, u: Updates, caller: Option<string>)
    requires Sound(s)
    ensures Sound(Update(s, id, u, caller))
  {
    if Owns(s, id, caller) {
      UpdateRewrites(s, id, u, caller);
      if TakesVersion(u) {
        var merged := Update(s, id, u, caller).strategies[id];
        OrderedGrows(s.versions[id], s.strategies[id].versionNumber, Version(merged.versionNumber, merged));
        OrderedCut(s.versions[id] + [Version(merged.versionNumber, merged)], merged.versionNumber);
      }
      RewritesKeepsSound(s, Update(s, id, u, caller), id);
    }
  }

  lemma UpdateRewrites(s: Store, id: Id, u: Updates, caller: Option<string>)
    requires Allocated(s) && s.strategies.Keys == s.versions.Keys && Owns(s, id, caller)
    ensures Rewrites(s, Update(s, id, u, caller), id)
  {
    var t, live := Update(s, id, u, caller), s.strategies[id];
    assert InUse(s, id, live.settings);
    forall ref: Ref | InUse(t, id, ref) ensures InUse(s, id, ref) {
      if ref != live.settings {
        var k :| 0 <= k < |t.versions[id]| && t.versions[id][k].data.settings == ref;
        var v := t.versions[id][k];
        assert v in s.versions[id];
        var i :| 0 <= i < |s.versions[id]| && s.versions[id][i] == v;
      }
    }
  }

  lemma RollbackIsSound(s: Store, id: Id, number: int, caller: Option<string>)
    requires Sound(s)
    ensures Sound(Rollback(s, id, number, caller))
  {
    if Target(s, id, number, caller).Found? {
      var t, vs := Rollback(s, id, number, caller), s.versions[id];
      HighestIsLast(vs);
      OrderedGrows(vs, s.strategies[id].versionNumber, t.versions[id][|vs|]);
      RollbackRewrites(s, id, number, caller);
      RewritesKeepsSound(s, t, id);
    }
  }

  lemma RollbackRewrites(s: Store, id: Id, number: int, caller: Option<string>)
    requires Allocated(s) && s.strategies.Keys == s.versions.Keys
    requires Target(s, id, number, caller).Found?
    ensures Rewrites(s, Rollback(s, id, number, caller), id)
  {
    var t, vs := Rollback(s, id, number, caller), s.versions[id];
    forall ref: Ref | InUse(t, id, ref) && ref < s.next ensures InUse(s, id, ref) {
      var k :| 0 <= k < |t.versions[id]| && t.versions[id][k].data.settings == ref;
      assert k < |vs| && vs[k] == t.versions[id][k];
    }
  }

  lemma SetStatusIsSound(s: Store, id: Id, status: string, caller: Option<string>)
    requires Sound(s)
    ensures Sound(SetStatus(s, id, status, caller))
  {
    if Get(s, id, caller).Found? {
      RewritesKeepsSound(s, SetStatus(s, id, status, caller), id);
    }
  }

  lemma CloneIsSound(s: Store, id: Id, newId: Id, caller: Option<string>)
    requires Sound(s)
    ensures Sound(Clone(s, id, newId, caller))
  {
    if Get(s, id, caller).Found? {
      CloneRewrites(s, id, newId, caller);
      RewritesKeepsSound(s, Clone(s, id, newId, caller), newId);
    }
  }

  lemma CloneRewrites(s: Store, id: Id, newId: Id, caller: Option<string>)
    requires Allocated(s) && Get(s, id, caller).Found?
    ensures var t := Clone(s, id, newId, caller);
      Rewrites(s, t, newId) && newId in t.versions && newId in t.strategies
      && Ordered(t.versions[newId], t.strategies[newId].versionNumber)
  {
  }

  lemma DeleteIsSound(s: Store, id: Id, caller: Option<string>)
    requires Sound(s)
    ensures Sound(Delete(s, id, caller))
  {
    if Owns(s, id, caller) {
      RewritesKeepsSound(s, Delete(s, id, caller), id);
    }
  }

  lemma DoIsSound(s: Store, op: Op)
    requires Sound(s)
    ensures Sound(Do(s, op))
  {
    match op
    case DoCreate(id, draft, owner) => CreateIsSound(s, id, draft, owner);
    case DoUpdate(id, updates, caller) => UpdateIsSound(s, id, updates, caller);
    case DoRollback(id, number, caller) => RollbackIsSound(s, id, number, caller);
    case DoSetStatus(id, status, caller) => SetStatusIsSound(s, id, status, caller);
    case DoClone(id, newId, caller) => CloneIsSound(s, id, newId, caller);
    case DoDelete(id, caller) => DeleteIsSound(s, id, caller);
  }

  /** After any operations by any callers, from an empty store: every strategy's versions are
      numbered strictly upwards and end at its current number, and no two strategies share a
      settings dictionary. */
  lemma {:induction false} EveryHistoryIsSound(ops: seq<Op>)
    ensures Sound(DoAll(EmptyStore(), ops))
  {
    if ops != [] {
      EveryHistoryIsSound(ops[..|ops|-1]);
      DoIsSound(DoAll(EmptyStore(), ops[..|ops|-1]), ops[|ops|-1]);
    }
  }

  // ----- what a version keeps

  predicate ReplacesHistory(op: Op, id: Id) {
    match op
    case DoCreate(newId, _, _) => newId == id
    case DoClone(_, newId, _) => newId == id
    case DoDelete(other, _) => other == id
    case _ => false
  }

  /** A stored version is never rewritten: its name, description, nodes and edges are there
      until it is cut off the front, and it is cut only by an update that fills the history. */
  lemma VersionsAreNeverRewritten(s: Store, op: Op, id: Id) returns (cut: nat, added: seq<Version>)
    requires !ReplacesHistory(op, id) && id in s.versions
    ensures cut <= |s.versions[id]| && VersionsOf(Do(s, op), id) == s.versions[id][cut..] + added
    ensures |added| <= 1 && (cut > 0 ==> op.DoUpdate? && |VersionsOf(Do(s, op), id)| == MAX_VERSIONS)
  {
    cut, added := 0, [];
    var before := s.versions[id];
    match op
    case DoUpdate(other, u, caller) =>
      if other == id && Owns(s, id, caller) && TakesVersion(u) {
        added := [Update(s, id, u, caller).versions[id][|Update(s, id, u, caller).versions[id]|-1]];
        cut := if |before| + 1 > MAX_VERSIONS then |before| + 1 - MAX_VERSIONS else 0;
        CutOfAppended(before, added[0]);
      }
    case DoRollback(other, number, caller) =>
      if other == id && VersionsOf(Rollback(s, id, number, caller), id) != before {
        added := [Rollback(s, id, number, caller).versions[id][|before|]];
      }
    case _ =>
  }

  lemma CutOfAppended(vs: seq<Version>, v: Version)
    ensures LastFew(vs + [v]) == (if |vs| + 1 > MAX_VERSIONS then vs[|vs| + 1 - MAX_VERSIONS..] else vs) + [v]
  {
  }

  /** A stored version's settings are another matter: an update writes to the record's
      dictionary, and so to that of every version which shares it. */
  lemma SettingsChangeExactlyWhenShared(s: Store, id: Id, u: Updates, caller: Option<string>, k: nat)
    requires Sound(s) && Owns(s, id, caller) && k < |s.versions[id]|
    ensures var ref := s.versions[id][k].data.settings;
      At(Update(s, id, u, caller), ref) ==
        if u.settings.Some? && ref == s.strategies[id].settings then At(s, ref) + u.settings.value else At(s, ref)
  {
  }

  /** The operations that save the whole record of a strategy anew: creating it, cloning another
      into it, rolling it back and changing its status. */
  predicate SavesWhole(s: Store, op: Op, id: Id) {
    match op
    case DoCreate(newId, _, _) => newId == id
    case DoClone(other, newId, caller) => newId == id && Get(s, other, caller).Found?
    case DoRollback(other, number, caller) => other == id && Target(s, other, number, caller).Found?
    case DoSetStatus(other, _, caller) => other == id && Get(s, other, caller).Found?
    case _ => false
  }

  /** The strategy's number when its record was last saved whole. */
  function NumberSavedWhole(ops: seq<Op>, id: Id): int {
    if ops == [] then 0
    else
      var s, op := DoAll(EmptyStore(), ops[..|ops|-1]), ops[|ops|-1];
      if SavesWhole(s, op, id) && id in Do(s, op).strategies then Do(s, op).strategies[id].versionNumber
      else NumberSavedWhole(ops[..|ops|-1], id)
  }

  /** The versions numbered above n share the record's dictionary; the others do not. */
  ghost predicate SharedAbove(s: Store, id: Id, n: int) {
    id in s.strategies && id in s.versions ==>
      && n <= s.strategies[id].versionNumber
      && forall k :: 0 <= k < |s.versions[id]| ==>
           (s.versions[id][k].data.settings == s.strategies[id].settings <==> s.versions[id][k].number > n)
  }

  lemma WholeSaveShares(s: Store, op: Op, id: Id)
    requires Sound(s) && SavesWhole(s, op, id)
    ensures id in Do(s, op).strategies && SharedAbove(Do(s, op), id, Do(s, op).strategies[id].versionNumber)
  {
    match op
    case DoRollback(_, number, caller) =>
      HighestIsLast(s.versions[id]);
      OldVersionsAreAllocated(s, id);
    case _ => OldVersionsAreAllocated(s, id);
  }

  lemma OldVersionsAreAllocated(s: Store, id: Id)
    requires Sound(s)
    ensures id in s.versions ==> forall k :: 0 <= k < |s.versions[id]| ==>
      s.versions[id][k].data.settings < s.next && s.versions[id][k].number <= s.strategies[id].versionNumber
  {
    if id in s.versions {
      forall k | 0 <= k < |s.versions[id]| ensures s.versions[id][k].data.settings < s.next {
        assert InUse(s, id, s.versions[id][k].data.settings);
      }
    }
  }

  lemma UpdateShares(s: Store, id: Id, u: Updates, caller: Option<string>, n: int)
    requires s.strategies.Keys == s.versions.Keys && SharedAbove(s, id, n)
    ensures SharedAbove(Update(s, id, u, caller), id, n)
  {
  }

  lemma OtherStepShares(s: Store, op: Op, id: Id, n: int)
    requires s.strategies.Keys == s.versions.Keys && SharedAbove(s, id, n) && !SavesWhole(s, op, id)
    ensures SharedAbove(Do(s, op), id, n)
  {
    if op.DoUpdate? && op.id == id {
      UpdateShares(s, id, op.updates, op.caller, n);
    }
  }

  lemma {:induction false} HistoryShares(ops: seq<Op>, id: Id)
    ensures SharedAbove(DoAll(EmptyStore(), ops), id, NumberSavedWhole(ops, id))
  {
    if ops != [] {
      var s, op := DoAll(EmptyStore(), ops[..|ops|-1]), ops[|ops|-1];
      EveryHistoryIsSound(ops[..|ops|-1]);
      HistoryShares(ops[..|ops|-1], id);
      if SavesWhole(s, op, id) {
        WholeSaveShares(s, op, id);
      } else {
        OtherStepShares(s, op, id, NumberSavedWhole(ops[..|ops|-1], id));
      }
    }
  }

  /** After any history, an update changes the settings of exactly those stored versions that
      were saved by an update since the strategy was last created, cloned, rolled back or given a
      status, when it gives settings that they do not have already. */
  lemma UpdateRewritesVersionsSavedSince(ops: seq<Op>, id: Id, u: Updates, caller: Option<string>, k: nat)
    requires var s := DoAll(EmptyStore(), ops); Owns(s, id, caller) && id in s.versions && k < |s.versions[id]|
    ensures var s := DoAll(EmptyStore(), ops);
            var v := s.versions[id][k];
            var before := At(s, v.data.settings);
      At(Update(s, id, u, caller), v.data.settings) != before
      <==> u.settings.Some? && before + u.settings.value != before && v.number > NumberSavedWhole(ops, id)
  {
    EveryHistoryIsSound(ops);
    HistoryShares(ops, id);
    SettingsChangeExactlyWhenShared(DoAll(EmptyStore(), ops), id, u, caller, k);
  }

  /** The contents of a strategy's settings, stored versions included, change by an update of that
      very strategy only: by no other operation, and by none on another strategy. */
  lemma OthersKeepTheirSettings(s: Store, op: Op, id: Id, ref: Ref)
    requires Sound(s) && InUse(s, id, ref) && !(op.DoUpdate? && op.id == id)
    ensures At(Do(s, op), ref) == At(s, ref)
  {
    if op.DoUpdate? && Owns(s, op.id, op.caller) {
      assert InUse(s, op.id, s.strategies[op.id].settings);
    }
  }

  function SetOnly(key: string, value: string): Updates {
    Updates(None, None, None, None, None, Some(map[key := value]))
  }

  /** Two settings updates in a row: the second rewrites the version the first one saved. */
  lemma SecondUpdateRewritesTheFirst(id: Id, d: Draft, key: string, a: string, b: string)
    requires a != b
    ensures var s1 := Update(Create(EmptyStore(), id, d, Some("")), id, SetOnly(key, a), None);
            var s2 := Update(s1, id, SetOnly(key, b), None);
      && s1.versions[id][1] == s2.versions[id][1] && s1.versions[id][1].number == 2
      && At(s1, s1.versions[id][1].data.settings)[key] == a && At(s2, s2.versions[id][1].data.settings)[key] == b
  {
  }

  // ----- comparing versions

  /** A record together with the contents of its settings. */
  datatype Doc = Doc(name: string, description: string, nodes: map<Id, Node>, edges: set<Edge>, settings: Settings)

  function NodeMap(nodes: seq<Node>): map<Id, Node> {
    if nodes == [] then map[] else NodeMap(nodes[..|nodes|-1])[nodes[|nodes|-1].id := nodes[|nodes|-1]]
  }

  function DocOf(s: Store, r: Record): Doc {
    Doc(r.name, r.description, NodeMap(r.nodes), (set e | e in r.edges), At(s, r.settings))
  }

  /** What changed from one document to the other, kind by kind. */
  datatype Diff = Diff(
    nameChanged: bool, descriptionChanged: bool, nodesRemoved: set<Id>, nodesAdded: set<Id>,
    paramsChanged: set<(Id, string)>,
    edgesAdded: set<Edge>, edgesRemoved: set<Edge>, settingsChanged: set<string>)
  {
    function Swapped(): Diff {
      this.(nodesRemoved := nodesAdded, nodesAdded := nodesRemoved,
            edgesAdded := edgesRemoved, edgesRemoved := edgesAdded)
    }

    function Added(): nat { |nodesAdded| + |edgesAdded| }
    function Removed(): nat { |nodesRemoved| + |edgesRemoved| }
    function Changed(): nat {
      (if nameChanged then 1 else 0) + (if descriptionChanged then 1 else 0) + |paramsChanged| + |settingsChanged|
    }
  }

  /** The keys on which two dictionaries differ, counting a missing key as different from any value. */
  function ChangedKeys(a: map<string, string>, b: map<string, string>): set<string> {
    set k | k in a.Keys + b.Keys && !(k in a && k in b && a[k] == b[k])
  }

  function ChangedParams(a: map<Id, Node>, b: map<Id, Node>): set<(Id, string)> {
    set nid, k | nid in a.Keys * b.Keys && k in ChangedKeys(a[nid].params, b[nid].params) :: (nid, k)
  }

  function CompareDocs(a: Doc, b: Doc): Diff {
    Diff(a.name != b.name, a.description != b.description,
         a.nodes.Keys - b.nodes.Keys, b.nodes.Keys - a.nodes.Keys,
         ChangedParams(a.nodes, b.nodes),
         b.edges - a.edges, a.edges - b.edges, ChangedKeys(a.settings, b.settings))
  }

  /** Both versions are read before either is looked at. */
  function Compare(s: Store, id: Id, from: int, to: int, caller: Option<string>): Lookup<Diff> {
    var a, b := Target(s, id, from, caller), Target(s, id, to, caller);
    if a.Raised? || b.Raised? then Raised
    else if a.Missing? || b.Missing? then Missing
    else Found(CompareDocs(DocOf(s, a.value), DocOf(s, b.value)))
  }

  /** What a dictionary holds under a key, if anything. */
  function ValueAt(m: map<string, string>, k: string): Option<string> {
    if k in m then Some(m[k]) else None
  }

  /** The differences lead from the one document to the other: the old nodes and edges, less the
      removed, plus the added, are the new ones; and of what both have, just the parameters and
      settings listed differ. */
  ghost predicate LeadsFromTo(a: Doc, d: Diff, b: Doc) {
    && (d.nameChanged <==> a.name != b.name) && (d.descriptionChanged <==> a.description != b.description)
    && d.nodesRemoved <= a.nodes.Keys && d.nodesAdded !! a.nodes.Keys
    && a.nodes.Keys - d.nodesRemoved + d.nodesAdded == b.nodes.Keys
    && d.edgesRemoved <= a.edges && d.edgesAdded !! a.edges && a.edges - d.edgesRemoved + d.edgesAdded == b.edges
    && (forall nid, k :: (nid, k) in d.paramsChanged <==>
          nid in a.nodes && nid in b.nodes && ValueAt(a.nodes[nid].params, k) != ValueAt(b.nodes[nid].params, k))
    && (forall k :: k in d.settingsChanged <==> ValueAt(a.settings, k) != ValueAt(b.settings, k))
  }

  lemma DocsLead(a: Doc, b: Doc)
    ensures LeadsFromTo(a, CompareDocs(a, b), b)
  {
    var d := CompareDocs(a, b);
    assert a.nodes.Keys - d.nodesRemoved + d.nodesAdded == b.nodes.Keys;
    assert a.edges - d.edgesRemoved + d.edgesAdded == b.edges;
  }

  /** A comparison leads from the first version named to the second. */
  lemma CompareLeads(s: Store, id: Id, from: int, to: int, caller: Option<string>)
    ensures var d := Compare(s, id, from, to, caller);
      d.Found? ==>
        var a, b := Find(VersionsOf(s, id), from), Find(VersionsOf(s, id), to);
        a.Some? && b.Some? && LeadsFromTo(DocOf(s, a.value.data), d.value, DocOf(s, b.value.data))
  {
    if Compare(s, id, from, to, caller).Found? {
      DocsLead(DocOf(s, Target(s, id, from, caller).value), DocOf(s, Target(s, id, to, caller).value));
    }
  }

  predicate NoChanges(d: Diff) {
    d.Added() == 0 && d.Removed() == 0 && d.Changed() == 0
  }

  /** Comparing the other way round swaps what was added with what was removed and keeps what changed. */
  lemma CompareSwaps(s: Store, id: Id, from: int, to: int, caller: Option<string>)
    ensures var d, e := Compare(s, id, from, to, caller), Compare(s, id, to, from, caller);
      && (d.Found? <==> e.Found?) && (d.Raised? <==> e.Raised?)
      && (d.Found? ==> e.value == d.value.Swapped())
      && (d.Found? ==> e.value.Added() == d.value.Removed() && e.value.Removed() == d.value.Added())
      && (d.Found? ==> e.value.Changed() == d.value.Changed())
  {
    if Compare(s, id, from, to, caller).Found? {
      DocsSwap(DocOf(s, Target(s, id, from, caller).value), DocOf(s, Target(s, id, to, caller).value));
    }
  }

  lemma DocsSwap(a: Doc, b: Doc)
    ensures CompareDocs(b, a) == CompareDocs(a, b).Swapped()
  {
    ChangedKeysSymmetric(a.settings, b.settings);
    forall nid | nid in a.nodes && nid in b.nodes
      ensures ChangedKeys(a.nodes[nid].params, b.nodes[nid].params)
              == ChangedKeys(b.nodes[nid].params, a.nodes[nid].params)
    {
      ChangedKeysSymmetric(a.nodes[nid].params, b.nodes[nid].params);
    }
    assert ChangedParams(a.nodes, b.nodes) == ChangedParams(b.nodes, a.nodes);
  }

  lemma ChangedKeysSymmetric(a: map<string, string>, b: map<string, string>)
    ensures ChangedKeys(a, b) == ChangedKeys(b, a)
  {
  }

  ghost predicate SameParams(a: map<Id, Node>, b: map<Id, Node>) {
    forall nid :: nid in a && nid in b ==> a[nid].params == b[nid].params
  }

  lemma NoChangedParams(a: map<Id, Node>, b: map<Id, Node>)
    ensures ChangedParams(a, b) == {} <==> SameParams(a, b)
  {
    if ChangedParams(a, b) == {} {
      forall nid | nid in a && nid in b ensures a[nid].params == b[nid].params {
        forall k ensures k !in ChangedKeys(a[nid].params, b[nid].params) {
          assert (nid, k) !in ChangedParams(a, b);
        }
        AgreeWhenNoKeyChanged(a[nid].params, b[nid].params);
      }
    }
  }

  /** What a comparison looks at. */
  ghost predicate Agree(a: Doc, b: Doc) {
    && a.name == b.name && a.description == b.description && a.edges == b.edges && a.settings == b.settings
    && a.nodes.Keys == b.nodes.Keys && SameParams(a.nodes, b.nodes)
  }

  /** A comparison is empty exactly when the two documents agree on everything it looks at. */
  lemma NoChangesMeansAgreement(a: Doc, b: Doc)
    ensures NoChanges(CompareDocs(a, b)) <==> Agree(a, b)
  {
    AgreeWhenNoKeyChanged(a.settings, b.settings);
    NoChangedParams(a.nodes, b.nodes);
    BothDifferencesEmpty(a.nodes.Keys, b.nodes.Keys);
    BothDifferencesEmpty(a.edges, b.edges);
  }

  lemma BothDifferencesEmpty<T>(a: set<T>, b: set<T>)
    ensures |a - b| + |b - a| == 0 <==> a == b
  {
    if a - b == {} && b - a == {} {
      assert forall x :: x in a ==> x !in a - b;
      assert forall x :: x in b ==> x !in b - a;
    }
  }

  lemma AgreeWhenNoKeyChanged(a: map<string, string>, b: map<string, string>)
    ensures ChangedKeys(a, b) == {} <==> a == b
  {
    if ChangedKeys(a, b) == {} {
      forall k ensures k in a <==> k in b {
        assert k !in ChangedKeys(a, b);
      }
      forall k | k in a ensures a[k] == b[k] {
        assert k !in ChangedKeys(a, b);
      }
    }
  }

  /** Right after a rollback the new version compares equal to the one rolled back to, for
      exactly those callers who can still see the strategy: those the old version's owner admits.
      To a version that cannot be read back there is no rollback at all. */
  lemma RollbackComparesEqual(s: Store, id: Id, number: int, caller: Option<string>)
    requires Sound(s) && Owns(s, id, caller) && Find(VersionsOf(s, id), number).Some?
    ensures var t, target := Rollback(s, id, number, caller), Find(VersionsOf(s, id), number).value.data;
            var d := Compare(t, id, number, Highest(VersionsOf(s, id)) + 1, caller);
      if Loads(target)
      then (d.Found? <==> VisibleTo(target, caller)) && (d.Found? ==> NoChanges(d.value)) && !d.Raised?
      else t == s && d.Raised?
  {
    if Target(s, id, number, caller).Found? {
      RollbackStores(s, id, number, caller);
      CompareCopies(Rollback(s, id, number, caller), id, number, Target(s, id, number, caller).value,
                    Highest(VersionsOf(s, id)) + 1, s.next + 1, caller);
    }
  }

  lemma CompareCopies(s: Store, id: Id, number: int, r: Record, top: int, ref: Ref, caller: Option<string>)
    requires Find(VersionsOf(s, id), number).Some? && Find(VersionsOf(s, id), number).value.data == r
    requires Find(VersionsOf(s, id), top) == Some(Version(top, r.(settings := ref, versionNumber := top)))
    requires At(s, ref) == At(s, r.settings) && Loads(r)
    ensures var d := Compare(s, id, number, top, caller);
      (d.Found? <==> Owns(s, id, caller)) && (d.Found? ==> NoChanges(d.value)) && !d.Raised?
  {
    SameContentsAgree(s, r, ref, top);
  }

  lemma SameContentsAgree(s: Store, r: Record, ref: Ref, number: int)
    requires At(s, ref) == At(s, r.settings)
    ensures NoChanges(CompareDocs(DocOf(s, r), DocOf(s, r.(settings := ref, versionNumber := number))))
  {
    NoChangesMeansAgreement(DocOf(s, r), DocOf(s, r.(settings := ref, versionNumber := number)));
  }

  /** After a rollback both versions can be found, and hold the same contents. */
  lemma RollbackStores(s: Store, id: Id, number: int, caller: Option<string>)
    requires Sound(s) && Target(s, id, number, caller).Found?
    ensures var t, vs := Rollback(s, id, number, caller), VersionsOf(s, id);
            var target, top := Find(vs, number).value, Highest(vs) + 1;
      && Find(VersionsOf(t, id), number) == Some(target)
      && Find(VersionsOf(t, id), top) == Some(Version(top, target.data.(settings := s.next + 1, versionNumber := top)))
      && At(t, s.next + 1) == At(t, target.data.settings) == At(s, target.data.settings)
      && (Owns(t, id, caller) <==> VisibleTo(target.data, caller))
  {
    var t, vs := Rollback(s, id, number, caller), VersionsOf(s, id);
    var target := Find(vs, number).value;
    HighestIsLast(vs);
    FindIsThere(vs, number);
    FindInLonger(vs, t.versions[id][|vs|], number);
    FindLast(vs, t.versions[id][|vs|]);
    assert InUse(s, id, target.data.settings) by {
      var k :| 0 <= k < |vs| && vs[k] == target;
    }
  }

  lemma {:induction false} FindInLonger(vs: seq<Version>, v: Version, number: int)
    requires Find(vs, number).Some?
    ensures Find(vs + [v], number) == Find(vs, number)
  {
    if vs[0].number != number {
      FindInLonger(vs[1..], v, number);
      assert (vs + [v])[1..] == vs[1..] + [v];
    }
  }

  lemma {:induction false} FindLast(vs: seq<Version>, v: Version)
    requires forall k :: 0 <= k < |vs| ==> vs[k].number != v.number
    ensures Find(vs + [v], v.number) == Some(v)
  {
    if vs != [] {
      FindLast(vs[1..], v);
      assert (vs + [v])[1..] == vs[1..] + [v];
    }
  }

  /** So an owner who rolls a newly created strategy back to its first version, whose owner is
      empty, can no longer see it. */
  lemma RollbackToFirstLosesTheOwner(id: Id, d: Draft, owner: string)
    requires owner != "" && !LooksLikeUuid(d.author)
    ensures var s := Create(EmptyStore(), id, d, Some(owner));
            var t := Rollback(s, id, 1, Some(owner));
      && Owns(s, id, Some(owner)) && t.strategies[id].versionNumber == 2 && !Owns(t, id, Some(owner))
      && Compare(t, id, 1, 2, Some(owner)) == Missing
  {
  }

  /** Whether the strategy's record was last saved whole by a creation that named no owner. */
  predicate LastSavedWithoutOwner(ops: seq<Op>, id: Id) {
    if ops == [] then false
    else
      var s, op := DoAll(EmptyStore(), ops[..|ops|-1]), ops[|ops|-1];
      if SavesWhole(s, op, id) then op.DoCreate? && op.owner == None else LastSavedWithoutOwner(ops[..|ops|-1], id)
  }

  lemma WholeSaveLoads(s: Store, op: Op, id: Id)
    requires SavesWhole(s, op, id)
    ensures id in Do(s, op).strategies
    ensures Loads(Do(s, op).strategies[id]) <==> !(op.DoCreate? && op.owner == None)
  {
  }

  lemma OtherStepKeepsOwner(s: Store, op: Op, id: Id)
    requires !SavesWhole(s, op, id) && id in Do(s, op).strategies
    ensures id in s.strategies && Do(s, op).strategies[id].owner == s.strategies[id].owner
  {
  }

  /** After any history a stored strategy can be read back exactly when the last operation that
      saved its record whole was not a creation without an owner. */
  lemma {:induction false} ReadableExactlyWhenSavedWithOwner(ops: seq<Op>, id: Id)
    ensures var s := DoAll(EmptyStore(), ops);
      id in s.strategies ==> (Loads(s.strategies[id]) <==> !LastSavedWithoutOwner(ops, id))
  {
    if ops != [] {
      var s, op := DoAll(EmptyStore(), ops[..|ops|-1]), ops[|ops|-1];
      ReadableExactlyWhenSavedWithOwner(ops[..|ops|-1], id);
      if SavesWhole(s, op, id) {
        WholeSaveLoads(s, op, id);
      } else if id in Do(s, op).strategies {
        OtherStepKeepsOwner(s, op, id);
      }
    }
  }

  function StatusOnly(status: string): Updates {
    Updates(None, None, Some(status), None, None, None)
  }

  /** A strategy created with no owner at all is never read back again, and changes of status do
      nothing to it, whatever else is done to it, unless it is rolled back.  Updates, which are
      made before the strategy is read back, still reach it. */
  lemma {:induction false} OwnerlessIsNeverReadBack(s: Store, id: Id, d: Draft, ops: seq<Op>)
    requires forall op :: op in ops ==> !ReplacesHistory(op, id) && !(op.DoRollback? && op.id == id)
    ensures var t := DoAll(Create(s, id, d, None), ops);
      && id in t.strategies && t.strategies[id].owner == None
      && (forall caller :: !Get(t, id, caller).Found?)
      && (forall status, caller :: SetStatus(t, id, status, caller) == t)
      && (forall status :: Update(t, id, StatusOnly(status), None).strategies[id].status == status)
  {
    if ops != [] {
      assert ops[|ops|-1] in ops;
      OwnerlessIsNeverReadBack(s, id, d, ops[..|ops|-1]);
    }
  }

  /** The cap binds updates only: a rollback always makes the history one longer. */
  lemma OnlyUpdatesAreCapped(s: Store, id: Id, u: Updates, number: int, caller: Option<string>)
    requires Sound(s) && Owns(s, id, caller)
    ensures TakesVersion(u) ==> |VersionsOf(Update(s, id, u, caller), id)| <= MAX_VERSIONS
    ensures Target(s, id, number, caller).Found? ==>
      |VersionsOf(Rollback(s, id, number, caller), id)| == |VersionsOf(s, id)| + 1
  {
  }

  function CreatedAndRolledBack(id: Id, d: Draft, owner: string, n: nat): seq<Op> {
    if n == 0 then [DoCreate(id, d, Some(owner))]
    else CreatedAndRolledBack(id, d, owner, n - 1) + [DoRollback(id, 1, None)]
  }

  ghost predicate HasVersions(s: Store, id: Id, first: Version, n: nat) {
    id in s.strategies && id in s.versions && |s.versions[id]| == n && n > 0 && s.versions[id][0] == first
  }

  lemma RollbackAddsOne(s: Store, id: Id, first: Version, n: nat)
    requires HasVersions(s, id, first, n) && first.number == 1 && Loads(first.data)
    ensures HasVersions(Rollback(s, id, 1, None), id, first, n + 1)
  {
  }

  /** So n rollbacks of a new strategy leave n + 1 versions, past the cap as well. */
  lemma {:induction false} RollbacksPassTheCap(id: Id, d: Draft, owner: string, n: nat)
    ensures var first := Create(EmptyStore(), id, d, Some(owner)).versions[id][0];
      HasVersions(DoAll(EmptyStore(), CreatedAndRolledBack(id, d, owner, n)), id, first, n + 1)
  {
    var ops := CreatedAndRolledBack(id, d, owner, n);
    if n == 0 {
      assert ops[..0] == [];
    } else {
      var init := CreatedAndRolledBack(id, d, owner, n - 1);
      RollbacksPassTheCap(id, d, owner, n - 1);
      assert ops[..|ops|-1] == init;
      RollbackAddsOne(DoAll(EmptyStore(), init), id, Create(EmptyStore(), id, d, Some(owner)).versions[id][0], n);
    }
  }
}
