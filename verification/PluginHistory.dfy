/**
 The plugin configuration and its undo history. Live configurations are objects
 that operations change in place; a snapshot is a list of fresh copies, so that
 later changes cannot reach it.
 */
module PluginHistory {
  import opened Selections

  /** The value of a plugin configuration at one moment; `rest` stands for all other settings. */
  datatype Config = Config(name: string, enabled: bool, order: int, rest: string)

  class PluginConfig {
    const name: string
    const order: int
    const rest: string
    var enabled: bool

    constructor (c: Config)
      ensures Value() == c
    {
      name, order, rest, enabled := c.name, c.order, c.rest, c.enabled;
    }

    function Value(): Config
      reads this
    {
      Config(name, enabled, order, rest)
    }
  }

  const HISTORY_MAX := 10

  // ---------------------------------------------------- the history, as values

  type History = seq<seq<Config>>

  function Push(h: History, c: seq<Config>): History {
    if |h| + 1 > HISTORY_MAX then (h + [c])[1..] else h + [c]
  }

  function PushAll(h: History, cs: seq<seq<Config>>): History {
    if cs == [] then h else Push(PushAll(h, cs[..|cs| - 1]), cs[|cs| - 1])
  }

  predicate CanRollBack(h: History, steps: int) {
    1 <= steps && steps + 1 <= |h|
  }

  function Target(h: History, steps: int): seq<Config>
    requires CanRollBack(h, steps)
  {
    h[|h| - (steps + 1)]
  }

  function RolledBack(h: History, steps: int): History
    requires CanRollBack(h, steps)
  {
    Push(h[..|h| - (steps + 1)], Target(h, steps))
  }

  ghost predicate Bounded(h: History) {
    0 < |h| <= 10
  }

  /** The newest entries of a list, as many as the history keeps. */
  function Newest(all: History): History {
    if |all| <= HISTORY_MAX then all else all[|all| - HISTORY_MAX..]
  }

  lemma PushKeepsNewest(all: History, c: seq<Config>)
    ensures Push(Newest(all), c) == Newest(all + [c])
  {
    if |all| > HISTORY_MAX {
      assert all[|all| - HISTORY_MAX..][1..] == all[|all| + 1 - HISTORY_MAX..];
    }
  }

  lemma {:induction false} PushAllKeepsNewest(h: History, cs: seq<seq<Config>>)
    requires Bounded(h)
    ensures PushAll(h, cs) == Newest(h + cs)
  {
    if cs == [] {
      assert h + cs == h;
    } else {
      var front, last := cs[..|cs| - 1], cs[|cs| - 1];
      PushAllKeepsNewest(h, front);
      PushKeepsNewest(h + front, last);
      assert h + cs == h + front + [last];
    }
  }

  /** Up to nine configuration operations can be undone: rolling back as many restores the list before them. */
  lemma {:induction false} UndoRestores(h: History, cs: seq<seq<Config>>)
    requires Bounded(h) && 1 <= |cs| <= 9
    ensures CanRollBack(PushAll(h, cs), |cs|)
    ensures Target(PushAll(h, cs), |cs|) == h[|h| - 1]
    ensures var r := RolledBack(PushAll(h, cs), |cs|); |r| <= |h| && r == h[|h| - |r|..]
  {
    PushAllKeepsNewest(h, cs);
    NewestBefore(h, cs);
    RollbackIsPrefix(PushAll(h, cs), |cs|);
  }

  /** Among the newest entries there is still the one before the last nine, and before it nothing but what was there. */
  lemma NewestBefore(h: History, cs: seq<seq<Config>>)
    requires Bounded(h) && |cs| <= 9
    ensures var r := Newest(h + cs);
            var n := |r| - |cs|;
            && 0 < n <= |h| && Bounded(r) && r[..n] == h[|h| - n..] && r[n - 1] == h[|h| - 1]
  {
    var all := h + cs;
    if |all| > HISTORY_MAX {
      var n := HISTORY_MAX - |cs|;
      assert all[|all| - HISTORY_MAX..][..n] == all[|h| - n..|h|] == h[|h| - n..];
    }
  }

  lemma RollbackIsPrefix(h: History, steps: int)
    requires Bounded(h) && CanRollBack(h, steps)
    ensures RolledBack(h, steps) == h[..|h| - steps]
  {
  }

  /** Rolling back twice is rolling back once by the sum, and is possible in the same cases. */
  lemma RollbacksAdd(h: History, j: int, k: int)
    requires Bounded(h) && CanRollBack(h, j) && k >= 1
    ensures CanRollBack(RolledBack(h, j), k) <==> CanRollBack(h, j + k)
    ensures CanRollBack(h, j + k) ==>
              && Target(RolledBack(h, j), k) == Target(h, j + k)
              && RolledBack(RolledBack(h, j), k) == RolledBack(h, j + k)
  {
  }

  // ------------------------------------------------------------- sorting by order

  function Insert(ps: seq<PluginConfig>, p: PluginConfig): (r: seq<PluginConfig>)
    ensures forall x :: x in r ==> x in ps || x == p
  {
    if ps == [] || ps[|ps| - 1].order <= p.order then ps + [p]
    else Insert(ps[..|ps| - 1], p) + [ps[|ps| - 1]]
  }

  /** Sorting by prompt order, as insertion from the left. */
  function Sort(ps: seq<PluginConfig>): (r: seq<PluginConfig>)
    ensures forall x :: x in r ==> x in ps
  {
    if ps == [] then [] else Insert(Sort(ps[..|ps| - 1]), ps[|ps| - 1])
  }

  ghost predicate Ordered(ps: seq<PluginConfig>) {
    forall i, j :: 0 <= i < j < |ps| ==> ps[i].order <= ps[j].order
  }

  lemma {:induction false} InsertOrdered(ps: seq<PluginConfig>, p: PluginConfig)
    requires Ordered(ps)
    ensures Ordered(Insert(ps, p))
  {
    if ps != [] && ps[|ps| - 1].order > p.order {
      var front, last := ps[..|ps| - 1], ps[|ps| - 1];
      InsertOrdered(front, p);
      var r := Insert(front, p);
      forall i | 0 <= i < |r| ensures r[i].order <= last.order { assert r[i] in front || r[i] == p; }
    }
  }

  /** The plugins of one prompt order, as they stand. */
  ghost function OfOrder(ps: seq<PluginConfig>, order: int): seq<PluginConfig> {
    if ps == [] then []
    else OfOrder(ps[..|ps| - 1], order) + if ps[|ps| - 1].order == order then [ps[|ps| - 1]] else []
  }

  lemma {:induction false} InsertStable(ps: seq<PluginConfig>, p: PluginConfig, order: int)
    ensures OfOrder(Insert(ps, p), order) == OfOrder(ps + [p], order)
  {
    assert (ps + [p])[..|ps|] == ps;
    if ps != [] && ps[|ps| - 1].order > p.order {
      var front, last := ps[..|ps| - 1], ps[|ps| - 1];
      InsertStable(front, p, order);
      assert (front + [p])[..|front|] == front;
      assert (Insert(front, p) + [last])[..|Insert(front, p)|] == Insert(front, p);
    }
  }

  lemma {:induction false} SortOrdered(ps: seq<PluginConfig>)
    ensures Ordered(Sort(ps))
  {
    if ps == [] {
    } else {
      SortOrdered(ps[..|ps| - 1]);
      InsertOrdered(Sort(ps[..|ps| - 1]), ps[|ps| - 1]);
    }
  }

  /** The sort is a permutation, and plugins of equal order keep their places. */
  lemma {:induction false} SortStable(ps: seq<PluginConfig>, order: int)
    ensures OfOrder(Sort(ps), order) == OfOrder(ps, order)
  {
    if ps == [] {
    } else {
      var sorted, last := Sort(ps[..|ps| - 1]), ps[|ps| - 1];
      SortStable(ps[..|ps| - 1], order);
      InsertStable(sorted, last, order);
      assert (sorted + [last])[..|sorted|] == sorted;
    }
  }

  function Named(ps: seq<PluginConfig>): (r: seq<PluginConfig>)
    ensures forall p :: p in r ==> p in ps
  {
    if ps == [] then []
    else Named(ps[..|ps| - 1]) + if ps[|ps| - 1].name != "" then [ps[|ps| - 1]] else []
  }

  function Without(ps: seq<PluginConfig>, name: string): (r: seq<PluginConfig>)
    ensures forall p :: p in r ==> p in ps && p.name != name
    ensures forall p :: p in ps && p.name != name ==> p in r
  {
    if ps == [] then []
    else Without(ps[..|ps| - 1], name) + if ps[|ps| - 1].name != name then [ps[|ps| - 1]] else []
  }

  ghost function WithName(ps: seq<PluginConfig>): set<nat> {
    set i: nat | i < |ps| && ps[i].name != ""
  }

  /** Exactly the plugins with a name are kept, in their order. */
  lemma {:induction false} NamedMeans(ps: seq<PluginConfig>) returns (at: seq<nat>)
    ensures Selects(ps, Named(ps), at, WithName(ps))
  {
    if ps == [] {
      at := [];
      SelectNone(ps, Named(ps), at, WithName(ps));
    } else {
      var n := |ps| - 1;
      var front, take := ps[..n], ps[n].name != "";
      at := NamedMeans(front);
      assert WithName(ps) == WithName(front) + if take then {n} else {};
      at := SelectNext(front, Named(front), at, WithName(front), take,
                       ps, Named(ps), WithName(ps));
    }
  }

  ghost function OfOtherName(ps: seq<PluginConfig>, name: string): set<nat> {
    set i: nat | i < |ps| && ps[i].name != name
  }

  /** Exactly the plugins of other names are kept, in their order. */
  lemma {:induction false} WithoutMeans(ps: seq<PluginConfig>, name: string) returns (at: seq<nat>)
    ensures Selects(ps, Without(ps, name), at, OfOtherName(ps, name))
  {
    if ps == [] {
      at := [];
      SelectNone(ps, Without(ps, name), at, OfOtherName(ps, name));
    } else {
      var n := |ps| - 1;
      var front, take := ps[..n], ps[n].name != name;
      at := WithoutMeans(front, name);
      assert OfOtherName(ps, name) == OfOtherName(front, name) + if take then {n} else {};
      at := SelectNext(front, Without(front, name), at, OfOtherName(front, name), take,
                       ps, Without(ps, name), OfOtherName(ps, name));
    }
  }

  // -------------------------------------------------------------- the live object

  ghost predicate Mirrors(ps: seq<PluginConfig>, cs: seq<Config>)
    reads ps
  {
    |ps| == |cs| && forall i :: 0 <= i < |ps| ==> ps[i].Value() == cs[i]
  }

  ghost function Values(ps: seq<PluginConfig>): (cs: seq<Config>)
    reads ps
    ensures Mirrors(ps, cs)
  {
    seq(|ps|, i requires 0 <= i < |ps| reads ps => ps[i].Value())
  }

  ghost predicate Within(ps: seq<PluginConfig>, objects: set<PluginConfig>) {
    forall p :: p in ps ==> p in objects
  }

  ghost predicate Apart(ps: seq<PluginConfig>, objects: set<PluginConfig>) {
    forall p :: p in ps ==> p !in objects
  }

  class PluginManager {
    var plugins: seq<PluginConfig>
    var history: seq<seq<PluginConfig>>
    ghost var past: History              // what the snapshots hold
    ghost var copies: set<PluginConfig>  // every object that was made for a snapshot

    ghost predicate Kept(i: nat)
      reads this, copies
    {
      i < |history| && i < |past| && Within(history[i], copies) && Mirrors(history[i], past[i])
    }

    /** Every snapshot still holds what it held when it was made, and shares no object with the live list. */
    ghost predicate Stored()
      reads this, copies
    {
      && |past| == |history|
      && (forall i: nat :: i < |history| ==> Kept(i))
      && Apart(plugins, copies)
    }

    ghost predicate Valid()
      reads this, plugins, copies
    {
      Stored() && Bounded(past) && past[|past| - 1] == Values(plugins)
    }

    constructor (given: seq<PluginConfig>)
      ensures Valid() && past == [Values(plugins)]
      ensures plugins == Sort(Named(given)) && fresh(copies)
    {
      plugins, history, past, copies := [], [], [], {};
      new;
      plugins := Sort(Named(given));
      SnapshotConfig();
    }

    /** Appends a snapshot of fresh copies and forgets the oldest beyond the limit. */
    method SnapshotConfig()
      requires Stored() && |past| <= HISTORY_MAX
      modifies this`history, this`past, this`copies
      ensures Valid() && past == Push(old(past), Values(plugins))
      ensures old(copies) <= copies && fresh(copies - old(copies))
    {
      var snapshot := CopyAll(plugins);
      Remember(snapshot);
      if |history| > HISTORY_MAX {
        ForgetOldest();
      }
    }

    method Remember(snapshot: seq<PluginConfig>)
      requires Stored() && Mirrors(snapshot, Values(plugins)) && Apart(plugins, set p | p in snapshot)
      modifies this`history, this`past, this`copies
      ensures Stored() && past == old(past) + [Values(plugins)]
      ensures copies == old(copies) + set p | p in snapshot
    {
      ghost var n := |history|;
      history := history + [snapshot];
      past := past + [Values(plugins)];
      copies := copies + set p | p in snapshot;
      forall i: nat | i < |history| ensures Kept(i) {
        if i < n { assert old(Kept(i)); }
      }
    }

    method ForgetOldest()
      requires Stored() && |past| > 0
      modifies this`history, this`past
      ensures Stored() && past == old(past)[1..]
    {
      history := history[1..];
      past := past[1..];
      forall i: nat | i < |history| ensures Kept(i) { assert old(Kept(i + 1)); }
    }

    method CopyAll(ps: seq<PluginConfig>) returns (cs: seq<PluginConfig>)
      ensures Mirrors(cs, Values(ps))
      ensures forall p :: p in cs ==> fresh(p)
    {
      cs := [];
      for k := 0 to |ps|
        invariant |cs| == k && forall i :: 0 <= i < k ==> cs[i].Value() == ps[i].Value()
        invariant forall p :: p in cs ==> fresh(p)
      {
        var c := new PluginConfig(ps[k].Value());
        cs := cs + [c];
      }
    }

    method SetLive(ps: seq<PluginConfig>)
      requires Stored() && Apart(ps, copies)
      modifies this`plugins
      ensures Stored() && plugins == ps
    {
      plugins := ps;
      forall i: nat | i < |history| ensures Kept(i) { assert old(Kept(i)); }
    }

    /** The caller's objects become live as they are; it never sees the copies. */
    method Reconfigure(given: seq<PluginConfig>)
      requires Valid() && Apart(given, copies)
      modifies this
      ensures Valid() && plugins == Sort(Named(given)) && past == Push(old(past), Values(plugins))
      ensures old(copies) <= copies && fresh(copies - old(copies))
    {
      SetLive(Sort(Named(given)));
      SnapshotConfig();
    }

    /** False stands for the error on an unnamed or duplicate plugin. */
    method AddPlugin(config: PluginConfig) returns (ok: bool)
      requires Valid() && config !in copies
      modifies this
      ensures Valid() && old(copies) <= copies && fresh(copies - old(copies))
      ensures ok <==> config.name != "" && forall p :: p in old(plugins) ==> p.name != config.name
      ensures ok ==> plugins == Sort(old(plugins) + [config]) && past == Push(old(past), Values(plugins))
      ensures !ok ==> plugins == old(plugins) && past == old(past) && history == old(history)
    {
      if config.name == "" || exists p :: p in plugins && p.name == config.name {
        return false;
      }
      SetLive(Sort(plugins + [config]));
      SnapshotConfig();
      ok := true;
    }

    method RemovePlugin(name: string) returns (ok: bool)
      requires Valid()
      modifies this
      ensures Valid() && old(copies) <= copies && fresh(copies - old(copies))
      ensures ok <==> exists p :: p in old(plugins) && p.name == name
      ensures ok ==> plugins == Without(old(plugins), name) && past == Push(old(past), Values(plugins))
      ensures !ok ==> plugins == old(plugins) && past == old(past) && history == old(history)
    {
      if forall p :: p in plugins ==> p.name != name {
        return false;
      }
      SetLive(Without(plugins, name));
      SnapshotConfig();
      ok := true;
    }

    /** The first plugin of that name, or the length of the list. */
    method FirstNamed(name: string) returns (k: nat)
      ensures k <= |plugins| && (k < |plugins| ==> plugins[k].name == name)
      ensures forall i :: 0 <= i < k ==> plugins[i].name != name
    {
      k := 0;
      while k < |plugins| && plugins[k].name != name
        invariant k <= |plugins| && forall i :: 0 <= i < k ==> plugins[i].name != name
      {
        k := k + 1;
      }
    }

    method TogglePlugin(name: string, enabled: bool) returns (ok: bool)
      requires Valid()
      modifies this, plugins
      ensures Valid() && old(copies) <= copies && fresh(copies - old(copies)) && plugins == old(plugins)
      ensures ok <==> exists p :: p in plugins && p.name == name
      ensures ok ==> past == Push(old(past), Values(plugins)) && ToggledFirst(name, enabled)
      ensures !ok ==> past == old(past) && history == old(history)
                      && forall p :: p in plugins ==> p.enabled == old(p.enabled)
    {
      var k := FirstNamed(name);
      if k == |plugins| {
        return false;
      }
      plugins[k].enabled := enabled;
      SnapshotConfig();
      ok := true;
    }

    /** Exactly the first plugin of that name was set. */
    twostate predicate ToggledFirst(name: string, enabled: bool)
      reads this, plugins
    {
      && plugins == old(plugins)
      && exists k :: 0 <= k < |plugins| && plugins[k].name == name
                     && (forall i :: 0 <= i < k ==> plugins[i].name != name)
                     && forall p :: p in plugins ==> p.enabled == if p == plugins[k] then enabled else old(p.enabled)
    }

    method DisablePlugins(names: set<string>)
      requires Valid()
      modifies this, plugins
      ensures Valid() && old(copies) <= copies && fresh(copies - old(copies)) && plugins == old(plugins)
      ensures past == Push(old(past), Values(plugins))
      ensures forall p :: p in plugins ==> p.enabled == (old(p.enabled) && p.name !in names)
    {
      for k := 0 to |plugins|
        modifies plugins
        invariant forall p :: p in plugins ==> p.enabled == old(p.enabled) || (p.name in names && !p.enabled)
        invariant forall i :: 0 <= i < k && plugins[i].name in names ==> !plugins[i].enabled
      {
        if plugins[k].name in names {
          plugins[k].enabled := false;
        }
      }
      forall p | p in plugins ensures p.enabled == (old(p.enabled) && p.name !in names) {
        var i :| 0 <= i < |plugins| && plugins[i] == p;
      }
      SnapshotConfig();
    }

    /** Fresh objects with the values of an earlier snapshot become live; false stands for the error. */
    method Rollback(steps: int) returns (ok: bool)
      requires Valid()
      modifies this
      ensures Valid() && old(copies) <= copies && fresh(copies - old(copies))
      ensures ok <==> CanRollBack(old(past), steps)
      ensures ok ==> past == RolledBack(old(past), steps) && Values(plugins) == Target(old(past), steps)
      ensures ok ==> forall p :: p in plugins ==> fresh(p)
      ensures !ok ==> plugins == old(plugins) && past == old(past) && history == old(history)
    {
      if steps < 1 || |history| < steps + 1 {
        return false;
      }
      var at := |history| - (steps + 1);
      assert Kept(at);
      Restore(at);
      SnapshotConfig();
      ok := true;
    }

    /** Copies of a snapshot become live and the history ends before that snapshot. */
    method Restore(at: nat)
      requires Stored() && at < |history|
      modifies this`plugins, this`history, this`past
      ensures Stored() && past == old(past)[..at] && Values(plugins) == old(past)[at]
      ensures forall p :: p in plugins ==> fresh(p)
    {
      assert Kept(at);
      plugins := CopyAll(history[at]);
      history, past := history[..at], past[..at];
      forall i: nat | i < at ensures Kept(i) { assert old(Kept(i)); }
    }
  }
}
