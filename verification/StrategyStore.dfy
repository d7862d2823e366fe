/** The in-memory strategy store as an object whose dictionaries change in place. */
module StrategyStore {
  import opened Options
  import opened StrategyDsl
  import opened VersionHistory

  class Manager {
    var strategies: map<Id, Record>
    var versions: map<Id, seq<Version>>
    var settings: map<Ref, Settings>
    var next: Ref

    ghost function Now(): Store
      reads this
    {
      Store(strategies, versions, settings, next)
    }

    constructor ()
      ensures Now() == EmptyStore()
    {
      strategies, versions, settings, next := map[], map[], map[], 0;
    }

    /** A new dictionary with the given contents. */
    method NewSettings(contents: Settings) returns (ref: Ref)
      modifies this`settings, this`next
      ensures ref == old(next) && Now() == WithCopy(old(Now()), contents)
    {
      ref := next;
      settings := settings[ref := contents];
      next := next + 1;
    }

    method ReadSettings(ref: Ref) returns (contents: Settings)
      ensures contents == At(Now(), ref)
    {
      contents := if ref in settings then settings[ref] else map[];
    }

    method CreateStrategy(id: Id, d: Draft, owner: Option<string>)
      modifies this
      ensures Now() == Create(old(Now()), id, d, owner)
    {
      var mine := NewSettings(d.settings);
      var saved := NewSettings(d.settings);
      var live := Record(d.name, d.description, d.author, owner, "draft", d.nodes, d.edges, mine, 1);
      strategies := strategies[id := live];
      versions := versions[id := [Version(1, live.(settings := saved, owner := Some("")))]];
    }

    /** Appends a snapshot that shares the record's settings, and cuts the history to the cap. */
    method SnapshotVersion(id: Id, data: Record)
      modifies this`versions
      ensures versions == old(versions)[id := LastFew(VersionsOf(old(Now()), id) + [Version(data.versionNumber, data)])]
    {
      var vs := if id in versions then versions[id] else [];
      vs := vs + [Version(data.versionNumber, data)];
      if |vs| > MAX_VERSIONS {
        vs := vs[|vs| - MAX_VERSIONS..];
      }
      versions := versions[id := vs];
    }

    /** The fields an update replaces outright. */
    method MergeFields(r: Record, u: Updates) returns (existing: Record)
      ensures existing == Merged(r, u)
    {
      existing := r;
      if u.name.Some? {
        existing := existing.(name := u.name.value);
      }
      if u.description.Some? {
        existing := existing.(description := u.description.value);
      }
      if u.status.Some? {
        existing := existing.(status := u.status.value);
      }
      if u.nodes.Some? {
        existing := existing.(nodes := u.nodes.value);
      }
      if u.edges.Some? {
        existing := existing.(edges := u.edges.value);
      }
    }

    method GetStrategy(id: Id, caller: Option<string>) returns (reply: Lookup<Record>)
      ensures reply == Get(Now(), id, caller)
    {
      if id !in strategies || !VisibleTo(strategies[id], caller) {
        return Missing;
      }
      reply := ReadBack(strategies[id]);
    }

    /** The store is updated before the strategy is read back for the answer. */
    method UpdateStrategy(id: Id, u: Updates, caller: Option<string>) returns (reply: Lookup<Record>)
      modifies this
      ensures Now() == Update(old(Now()), id, u, caller)
      ensures reply == Get(Now(), id, caller)
    {
      if id !in strategies || !VisibleTo(strategies[id], caller) {
        return Missing;
      }
      var existing := MergeFields(strategies[id], u);
      if u.settings.Some? {
        var current := ReadSettings(existing.settings);
        settings := settings[existing.settings := current + u.settings.value];
      }
      if TakesVersion(u) {
        existing := existing.(versionNumber := existing.versionNumber + 1);
        strategies := strategies[id := existing];
        SnapshotVersion(id, existing);
      } else {
        strategies := strategies[id := existing];
      }
      reply := ReadBack(existing);
    }

    method FindVersion(id: Id, number: int) returns (v: Option<Version>)
      ensures v == Find(VersionsOf(Now(), id), number)
    {
      var vs := if id in versions then versions[id] else [];
      for k := 0 to |vs|
        invariant Find(vs, number) == Find(vs[k..], number)
      {
        if vs[k].number == number {
          return Some(vs[k]);
        }
        assert vs[k..][1..] == vs[k+1..];
      }
      v := None;
    }

    method HighestNumber(vs: seq<Version>) returns (highest: int)
      ensures highest == Highest(vs)
    {
      highest := 0;
      for k := 0 to |vs|
        invariant highest == Highest(vs[..k])
      {
        assert vs[..k+1][..k] == vs[..k];
        if k == 0 || vs[k].number >= highest {
          highest := vs[k].number;
        }
      }
      assert vs[..|vs|] == vs;
    }

    /** Answers with the strategy as rolled back, even to a caller who may no longer see it. */
    method RollbackStrategy(id: Id, number: int, caller: Option<string>) returns (reply: Lookup<Record>)
      modifies this
      ensures Now() == Rollback(old(Now()), id, number, caller)
      ensures if Target(old(Now()), id, number, caller).Found?
              then id in strategies && reply == Found(strategies[id])
              else reply == Target(old(Now()), id, number, caller)
    {
      if id !in strategies || !VisibleTo(strategies[id], caller) {
        return Missing;
      }
      var target := FindVersion(id, number);
      if target.None? {
        return Missing;
      }
      if !Loads(target.value.data) {
        return Raised;
      }
      var vs := if id in versions then versions[id] else [];
      var highest := HighestNumber(vs);
      var contents := ReadSettings(target.value.data.settings);
      var mine := NewSettings(contents);
      var saved := NewSettings(contents);
      var live := target.value.data.(settings := mine, versionNumber := highest + 1);
      strategies := strategies[id := live];
      versions := versions[id := vs + [Version(live.versionNumber, live.(settings := saved))]];
      reply := Found(live);
    }

    method ChangeStatus(id: Id, status: string, caller: Option<string>) returns (reply: Lookup<Record>)
      modifies this
      ensures Now() == SetStatus(old(Now()), id, status, caller)
      ensures reply == Get(Now(), id, caller)
    {
      reply := GetStrategy(id, caller);
      if reply.Found? {
        var contents := ReadSettings(strategies[id].settings);
        var mine := NewSettings(contents);
        strategies := strategies[id := strategies[id].(settings := mine, status := status)];
        reply := Found(strategies[id]);
      }
    }

    method CloneStrategy(id: Id, newId: Id, caller: Option<string>) returns (reply: Lookup<Record>)
      modifies this
      ensures Now() == Clone(old(Now()), id, newId, caller)
      ensures reply ==
              if Get(old(Now()), id, caller).Found? then Get(Now(), newId, caller) else Get(old(Now()), id, caller)
    {
      reply := GetStrategy(id, caller);
      if reply.Found? {
        var original := strategies[id];
        var contents := ReadSettings(original.settings);
        var mine := NewSettings(contents);
        var saved := NewSettings(contents);
        var copy := original.(name := original.name + " (Copy)", status := "draft",
                               versionNumber := 1, settings := mine);
        strategies := strategies[newId := copy];
        versions := versions[newId := [Version(1, copy.(settings := saved))]];
        reply := Found(copy);
      }
    }

    method DeleteStrategy(id: Id, caller: Option<string>) returns (found: bool)
      modifies this
      ensures Now() == Delete(old(Now()), id, caller)
      ensures found <==> Owns(old(Now()), id, caller)
    {
      found := id in strategies && VisibleTo(strategies[id], caller);
      if found {
        strategies := strategies - {id};
        versions := versions - {id};
      }
    }
  }
}
