/** What the operations on saved strategies leave behind, field by field and key by key, and whom
    they concern. */
module StoredDocs {
  import opened Options
  import opened StrategyDsl
  import opened VersionHistory

  // ----- who sees what

  /** A tenant sees just what it owns: by the owner recorded, or, where none is, by an author of the
      form of a profile id.  So no strategy is seen by two tenants. */
  lemma TenantsSeeTheirOwn(r: Record, tenant: string, other: string)
    ensures r.owner.Some? && r.owner.value != "" ==> (VisibleTo(r, Some(tenant)) <==> r.owner.value == tenant)
    ensures r.owner in {None, Some("")} ==>
      (VisibleTo(r, Some(tenant)) <==> r.author == tenant && LooksLikeUuid(r.author))
    ensures VisibleTo(r, Some(tenant)) && VisibleTo(r, Some(other)) ==> tenant == other
  {
  }

  function CallerOf(op: Op): Option<string> {
    match op
    case DoCreate(_, _, _) => None
    case DoUpdate(_, _, caller) => caller
    case DoRollback(_, _, caller) => caller
    case DoSetStatus(_, _, caller) => caller
    case DoClone(_, _, caller) => caller
    case DoDelete(_, caller) => caller
  }

  /** On a strategy that its caller does not see, an operation does nothing. */
  lemma UnseenIsUntouched(s: Store, op: Op)
    requires !op.DoCreate? && !Owns(s, op.id, CallerOf(op))
    ensures Do(s, op) == s
  {
  }

  /** The strategy an operation is to change. */
  function Changed(op: Op): Id {
    if op.DoClone? then op.newId else op.id
  }

  /** What is stored under other ids stays: records, versions and the contents of their settings. */
  lemma OthersAreUntouched(s: Store, op: Op, other: Id)
    requires Sound(s) && other != Changed(op)
    ensures var t := Do(s, op);
      && (other in t.strategies <==> other in s.strategies) && VersionsOf(t, other) == VersionsOf(s, other)
      && (other in s.strategies ==> t.strategies[other] == s.strategies[other])
      && forall ref: Ref :: InUse(s, other, ref) ==> At(t, ref) == At(s, ref)
  {
    forall ref: Ref | InUse(s, other, ref) ensures At(Do(s, op), ref) == At(s, ref) {
      OthersKeepTheirSettings(s, op, other, ref);
    }
  }

  // ----- what is stored

  /** The record holds these contents. */
  ghost predicate Contains(s: Store, r: Record, name: string, description: string, author: string, nodes: seq<Node>,
      edges: seq<Edge>, settings: Settings) {
    && r.name == name && r.description == description && r.author == author
    && r.nodes == nodes && r.edges == edges && At(s, r.settings) == settings
  }

  /** One version, with a dictionary of its own. */
  ghost predicate StartsHistory(t: Store, id: Id) {
    && id in t.strategies && |VersionsOf(t, id)| == 1
    && VersionsOf(t, id)[0].number == 1 && VersionsOf(t, id)[0].data.versionNumber == 1
    && t.strategies[id].versionNumber == 1 && VersionsOf(t, id)[0].data.settings != t.strategies[id].settings
  }

  lemma CreatedAsDrafted(s: Store, id: Id, d: Draft, owner: Option<string>)
    ensures var t := Create(s, id, d, owner);
      && StartsHistory(t, id)
      && var live, first := t.strategies[id], VersionsOf(t, id)[0].data;
         && live.owner == owner && first.owner == Some("") && live.status == first.status == "draft"
         && Contains(t, live, d.name, d.description, d.author, d.nodes, d.edges, d.settings)
         && Contains(t, first, d.name, d.description, d.author, d.nodes, d.edges, d.settings)
  {
  }

  /** A clone is a draft of the same contents, for the same owner, under its own name and with a
      history of its own; the original stays. */
  lemma ClonedAsItStood(s: Store, id: Id, newId: Id, caller: Option<string>)
    requires Sound(s) && Get(s, id, caller).Found? && newId != id
    ensures var t, r := Clone(s, id, newId, caller), s.strategies[id];
      && StartsHistory(t, newId) && t.strategies[id] == r && At(t, r.settings) == At(s, r.settings)
      && var live, first := t.strategies[newId], VersionsOf(t, newId)[0].data;
         && live.owner == first.owner == r.owner && live.status == first.status == "draft"
         && Contains(t, live, r.name + " (Copy)", r.description, r.author, r.nodes, r.edges, At(s, r.settings))
         && Contains(t, first, r.name + " (Copy)", r.description, r.author, r.nodes, r.edges, At(s, r.settings))
  {
    assert InUse(s, id, s.strategies[id].settings);
  }

  function Given<T>(update: Option<T>, was: T): T {
    match update
    case Some(value) => value
    case None => was
  }

  function Last(vs: seq<Version>): Option<Version> {
    if vs == [] then None else Some(vs[|vs|-1])
  }

  /** An update changes the fields it gives and no others; of the settings, the keys it gives; and
      it takes a version, under the next number, exactly if it gives the name, the nodes, the edges
      or settings. */
  lemma UpdatedAsAsked(s: Store, id: Id, u: Updates, caller: Option<string>)
    requires Sound(s) && Owns(s, id, caller)
    ensures var t, was := Update(s, id, u, caller), s.strategies[id];
            var taken := u.name.Some? || u.nodes.Some? || u.edges.Some? || u.settings.Some?;
      && id in t.strategies
      && var r := t.strategies[id];
         && r.name == Given(u.name, was.name) && r.description == Given(u.description, was.description)
         && r.status == Given(u.status, was.status) && r.nodes == Given(u.nodes, was.nodes)
         && r.edges == Given(u.edges, was.edges) && r.author == was.author && r.owner == was.owner
         && r.versionNumber == was.versionNumber + (if taken then 1 else 0)
         && (if taken then Last(VersionsOf(t, id)) == Some(Version(r.versionNumber, r))
             else VersionsOf(t, id) == VersionsOf(s, id))
  {
  }

  lemma SettingsMergedByKey(s: Store, id: Id, u: Updates, caller: Option<string>, key: string)
    requires Sound(s) && Owns(s, id, caller)
    ensures var t := Update(s, id, u, caller);
      id in t.strategies && ValueAt(At(t, t.strategies[id].settings), key)
      == if u.settings.Some? && key in u.settings.value then Some(u.settings.value[key])
         else ValueAt(At(s, s.strategies[id].settings), key)
  {
  }

  /** A change of status changes nothing else that can be read, and takes no version. */
  lemma StatusIsAllThatChanges(s: Store, id: Id, status: string, caller: Option<string>)
    requires Sound(s) && Get(s, id, caller).Found?
    ensures var t, was := SetStatus(s, id, status, caller), s.strategies[id];
      && VersionsOf(t, id) == VersionsOf(s, id) && id in t.strategies
      && t.strategies[id] == was.(status := status, settings := t.strategies[id].settings)
      && At(t, t.strategies[id].settings) == At(s, was.settings)
  {
  }

  /** A deleted strategy is not to be found by anyone, nor any version of it. */
  lemma DeletedIsGone(s: Store, id: Id, caller: Option<string>, reader: Option<string>, number: int)
    requires Owns(s, id, caller)
    ensures var t := Delete(s, id, caller);
      Get(t, id, reader).Missing? && VersionsOf(t, id) == [] && Target(t, id, number, reader).Missing?
  {
  }
}
