/** `Config` reload: the background thread loads the inactive map and swaps it in, the
    foreground passes it on, and requests arrive at any time.  Each field access that another
    thread can see is a step of its own, so that a configurable, which looks up one key at a
    time, may meet a swap between two keys. */
module Reload {
  import opened Options

  type Values = map<string, string>

  /** What the sources leave in a map, loaded in order: the last to set a key wins. */
  function Overlay(base: Values, loaded: seq<Values>): Values {
    if loaded == [] then base
    else var n := |loaded| - 1; Overlay(base, loaded[..n]) + loaded[n]
  }

  /** The fields of the object. */
  datatype Core = Core(reload: bool, changed: bool, firstActive: bool, values1: Values, values2: Values)
  {
    function Active(): Values {
      if firstActive then values1 else values2
    }

    function Inactive(): Values {
      if firstActive then values2 else values1
    }

    function SetInactive(v: Values): Core {
      if firstActive then this.(values2 := v) else this.(values1 := v)
    }
  }

  /** Where the background thread is in `execute`: after seeing the request, after clearing it,
      part of the way through the sources, after the swap. */
  datatype Background = BgIdle | BgSeen | BgCleared | BgLoading(loaded: seq<Values>) | BgSwapped

  /** `getStringRaw` as a configurable saw it: the key, what was found, and how many loads had
      been finished. */
  datatype Lookup = Lookup(key: string, found: Option<string>, load: nat)

  /** Where the foreground thread is in `reloadConfigurables`: at configurable next, which has
      made the lookups so far. */
  datatype Foreground = FgIdle | FgSeen | FgPassing(next: nat, sofar: seq<Lookup>)

  /** requests counts the reload requests so far; begun is that count when the latest load
      began, and published when the load now published began.  loads are the finished loads in
      order, and read[j] the lookups of the last reload of configurable j, if there was one. */
  datatype State = State(core: Core, sources: nat, bg: Background, fg: Foreground,
                         requests: nat, begun: nat, published: nat, loads: seq<seq<Values>>,
                         read: seq<Option<seq<Lookup>>>)

  datatype Event =
    | Request
    | BgCheck | BgClearLatch | BgBegin | BgLoad(found: Values) | BgSwap | BgSignal
    | FgCheck | FgClearLatch | FgRead(key: string) | FgNext | FgFinish

  function Start(sources: nat, configurables: nat): State {
    State(Core(false, false, true, map[], map[]), sources, BgIdle, FgIdle, 0, 0, 0, [], seq(configurables, _ => None))
  }

  /** `find` in the map. */
  function Find(values: Values, key: string): Option<string> {
    if key in values then Some(values[key]) else None
  }

  /** An event whose thread is not at that point changes nothing.  How many keys a configurable
      looks up, and which, is its own affair. */
  function Step(s: State, e: Event): State {
    match e
    case Request => s.(core := s.core.(reload := true), requests := s.requests + 1)
    case BgCheck => if s.bg == BgIdle && s.core.reload then s.(bg := BgSeen) else s
    case BgClearLatch => if s.bg == BgSeen then s.(bg := BgCleared, core := s.core.(reload := false)) else s
    case BgBegin =>
      if s.bg == BgCleared then s.(bg := BgLoading([]), core := s.core.SetInactive(map[]), begun := s.requests) else s
    case BgLoad(found) =>
      if s.bg.BgLoading? && |s.bg.loaded| < s.sources
      then s.(bg := BgLoading(s.bg.loaded + [found]), core := s.core.SetInactive(s.core.Inactive() + found)) else s
    case BgSwap =>
      if s.bg.BgLoading? && |s.bg.loaded| == s.sources
      then s.(bg := BgSwapped, core := s.core.(firstActive := !s.core.firstActive),
              published := s.begun, loads := s.loads + [s.bg.loaded]) else s
    case BgSignal => if s.bg == BgSwapped then s.(bg := BgIdle, core := s.core.(changed := true)) else s
    case FgCheck => if s.fg == FgIdle && s.core.changed then s.(fg := FgSeen) else s
    case FgClearLatch => if s.fg == FgSeen then s.(fg := FgPassing(0, []), core := s.core.(changed := false)) else s
    case FgRead(key) =>
      if s.fg.FgPassing? && s.fg.next < |s.read|
      then s.(fg := s.fg.(sofar := s.fg.sofar + [Lookup(key, Find(s.core.Active(), key), |s.loads|)])) else s
    case FgNext =>
      if s.fg.FgPassing? && s.fg.next < |s.read|
      then s.(read := s.read[s.fg.next := Some(s.fg.sofar)], fg := FgPassing(s.fg.next + 1, [])) else s
    case FgFinish => if s.fg.FgPassing? && s.fg.next == |s.read| then s.(fg := FgIdle) else s
  }

  function Run(s: State, events: seq<Event>): State {
    if events == [] then s else Step(Run(s, events[..|events| - 1]), events[|events| - 1])
  }

  /** The values after n finished loads. */
  function Version(s: State, n: nat): Values
    requires n <= |s.loads|
  {
    if n == 0 then map[] else Overlay(map[], s.loads[n - 1])
  }

  /** The maps: the published one is the whole overlay of the latest finished load, whatever has
      been written to the other; the other is the overlay of the sources loaded so far. */
  ghost predicate MapsOk(s: State) {
    && (forall i :: 0 <= i < |s.loads| ==> |s.loads[i]| == s.sources)
    && s.core.Active() == Version(s, |s.loads|)
    && (s.bg.BgLoading? ==> |s.bg.loaded| <= s.sources && s.core.Inactive() == Overlay(map[], s.bg.loaded))
  }

  /** The requests: with the request latch clear, every request was made before the latest load
      began, but for the moment between the clearing of the latch and the beginning. */
  ghost predicate RequestsOk(s: State) {
    && s.published <= s.begun <= s.requests
    && (s.bg == BgSeen ==> s.core.reload)
    && (!s.core.reload && s.bg != BgCleared ==> s.begun == s.requests)
    && (!s.bg.BgLoading? ==> s.published == s.begun)
  }

  ghost predicate AllFrom(lookups: seq<Lookup>, load: nat) {
    forall i :: 0 <= i < |lookups| ==> lookups[i].load == load
  }

  /** The configurables: with the change latch clear and the swap signalled, all lookups of those
      the foreground has passed, and those of the one it is at, were made in the latest finished
      load. */
  ghost predicate ReadsOk(s: State) {
    && (s.fg.FgPassing? ==> s.fg.next <= |s.read| && (s.fg.next == |s.read| ==> s.fg.sofar == []))
    && (s.fg == FgSeen ==> s.core.changed)
    && (!s.core.changed && s.bg != BgSwapped && |s.loads| > 0 ==>
          && (s.fg.FgPassing? ==> AllFrom(s.fg.sofar, |s.loads|))
          && forall j :: 0 <= j < (if s.fg.FgPassing? then s.fg.next else |s.read|) ==>
               s.read[j].Some? && AllFrom(s.read[j].value, |s.loads|))
  }

  /** The lookup found what the load it was made in gave its key. */
  ghost predicate Sound(s: State, x: Lookup) {
    x.load <= |s.loads| && x.found == Find(Version(s, x.load), x.key)
  }

  /** Every lookup, also in a reload that a swap has split, is of one whole load. */
  ghost predicate LookupsOk(s: State) {
    && (s.fg.FgPassing? ==> forall x :: x in s.fg.sofar ==> Sound(s, x))
    && (forall j, x :: 0 <= j < |s.read| && s.read[j].Some? && x in s.read[j].value ==> Sound(s, x))
  }

  lemma OverlaySnoc(base: Values, loaded: seq<Values>, v: Values)
    ensures Overlay(base, loaded + [v]) == Overlay(base, loaded) + v
  {
    assert (loaded + [v])[..|loaded|] == loaded;
  }

  /** The last source to set a key wins; a key no source sets is not there. */
  lemma {:induction false} LastSourceWins(loaded: seq<Values>, key: string)
    ensures key in Overlay(map[], loaded) <==> exists i :: 0 <= i < |loaded| && key in loaded[i]
    ensures forall i :: 0 <= i < |loaded| && key in loaded[i] && (forall j :: i < j < |loaded| ==> key !in loaded[j])
              ==> Overlay(map[], loaded)[key] == loaded[i][key]
  {
    if loaded == [] {
    } else {
      var n := |loaded| - 1;
      LastSourceWins(loaded[..n], key);
      assert forall i :: 0 <= i < n ==> loaded[..n][i] == loaded[i];
    }
  }

  lemma StepKeepsMaps(s: State, e: Event)
    requires MapsOk(s)
    ensures MapsOk(Step(s, e))
  {
    if e.BgLoad? && s.bg.BgLoading? {
      OverlaySnoc(map[], s.bg.loaded, e.found);
    }
  }

  lemma StepKeepsRequests(s: State, e: Event)
    requires RequestsOk(s)
    ensures RequestsOk(Step(s, e))
  {
  }

  lemma StepKeepsReads(s: State, e: Event)
    requires ReadsOk(s)
    ensures ReadsOk(Step(s, e)) && Step(s, e).sources == s.sources && |Step(s, e).read| == |s.read|
  {
  }

  /** No step takes a finished load back. */
  lemma StepKeepsLoads(s: State, e: Event, x: Lookup)
    ensures s.loads <= Step(s, e).loads
    ensures Sound(s, x) ==> Sound(Step(s, e), x)
  {
    hide Find, Overlay;
  }

  lemma StepKeepsLookups(s: State, e: Event)
    requires MapsOk(s) && LookupsOk(s)
    ensures LookupsOk(Step(s, e))
  {
    var t := Step(s, e);
    forall x | Sound(s, x) ensures Sound(t, x) {
      StepKeepsLoads(s, e, x);
    }
    if e.FgRead? {
      assert Sound(s, Lookup(e.key, Find(s.core.Active(), e.key), |s.loads|));
    }
    hide Sound, Find, Overlay;
  }

  lemma {:induction false} RunKeeps(sources: nat, configurables: nat, events: seq<Event>)
    ensures var s := Run(Start(sources, configurables), events);
            && MapsOk(s) && RequestsOk(s) && ReadsOk(s) && LookupsOk(s)
            && s.sources == sources && |s.read| == configurables
  {
    if events == [] {
    } else {
      hide MapsOk, RequestsOk, ReadsOk, LookupsOk, Step, Start;
      var n := |events| - 1;
      var s := Run(Start(sources, configurables), events[..n]);
      RunKeeps(sources, configurables, events[..n]);
      StepKeepsMaps(s, events[n]);
      StepKeepsRequests(s, events[n]);
      StepKeepsReads(s, events[n]);
      StepKeepsLookups(s, events[n]);
    }
  }

  /** Every interleaving of any number of requests with the two threads: the published map is
      nothing but one whole finished load (or the empty map before the first), and so is what
      any lookup finds; when no request is pending and no load is under way, what is published
      comes from a load begun after every request; and when moreover no change is pending and no
      pass is under way, every configurable has reloaded and found each of its keys in what is
      published. */
  lemma ReloadReaches(sources: nat, configurables: nat, events: seq<Event>)
    ensures var s := Run(Start(sources, configurables), events);
            && |s.read| == configurables
            && s.core.Active() == Version(s, |s.loads|)
            && (forall i :: 0 <= i < |s.loads| ==> |s.loads[i]| == sources)
            && (forall j, x :: 0 <= j < configurables && s.read[j].Some? && x in s.read[j].value ==> Sound(s, x))
            && (!s.core.reload && s.bg == BgIdle ==> s.published == s.requests)
            && (!s.core.changed && s.bg != BgSwapped && s.fg == FgIdle && |s.loads| > 0 ==>
                  forall j :: 0 <= j < configurables ==>
                    && s.read[j].Some?
                    && forall x :: x in s.read[j].value ==> x.found == Find(s.core.Active(), x.key))
  {
    hide Run, Start, Find, Step;
    RunKeeps(sources, configurables, events);
    var s := Run(Start(sources, configurables), events);
    if !s.core.changed && s.bg != BgSwapped && s.fg == FgIdle && |s.loads| > 0 {
      forall j | 0 <= j < configurables
        ensures s.read[j].Some? && forall x :: x in s.read[j].value ==> x.found == Find(s.core.Active(), x.key)
      {
        forall x | x in s.read[j].value ensures x.found == Find(s.core.Active(), x.key) {
          assert Sound(s, x) && x.load == |s.loads|;
        }
      }
    }
  }

  /** A swap between two keys: one configurable, one reload, two loads. */
  lemma SwapSplitsReload(s: State, a: string, b: string)
    requires s.fg.FgPassing? && s.fg.next < |s.read| && s.bg.BgLoading? && |s.bg.loaded| == s.sources
    requires MapsOk(s)
    ensures var t := Run(s, [FgRead(a), BgSwap, FgRead(b)]);
            t.fg == s.fg.(sofar := s.fg.sofar + [Lookup(a, Find(s.core.Active(), a), |s.loads|),
                                                 Lookup(b, Find(Overlay(map[], s.bg.loaded), b), |s.loads| + 1)])
  {
    hide Find, Overlay, Run;
    RunThree(s, FgRead(a), BgSwap, FgRead(b));
    var t := Step(Step(s, FgRead(a)), BgSwap);
    assert t.core.Active() == Overlay(map[], s.bg.loaded) && |t.loads| == |s.loads| + 1;
  }

  /** A request and the first load, up to the swap. */
  lemma FirstLoad(first: Values)
    ensures var t := Run(Start(1, 1), [Request, BgCheck, BgClearLatch] + [BgBegin, BgLoad(first), BgSwap]);
            && t.bg == BgSwapped && t.fg == FgIdle && t.sources == 1 && t.core.Active() == first && |t.loads| == 1
  {
    hide Run;
    var s := Start(1, 1);
    RunConcat(s, [Request, BgCheck, BgClearLatch], [BgBegin, BgLoad(first), BgSwap]);
    RunThree(s, Request, BgCheck, BgClearLatch);
    var t := State(Core(false, false, true, map[], map[]), 1, BgCleared, FgIdle, 1, 0, 0, [], [None]);
    assert Step(Step(Step(s, Request), BgCheck), BgClearLatch) == t;
    RunThree(t, BgBegin, BgLoad(first), BgSwap);
    assert map[] + first == first;
  }

  /** From there: the pass begins, and a second request and load, up to the swap. */
  lemma SecondLoad(s: State, second: Values)
    requires s.bg == BgSwapped && s.fg == FgIdle && s.sources == 1
    ensures var t := Run(s, [BgSignal, FgCheck, FgClearLatch] + [Request, BgCheck, BgClearLatch]
                            + [BgBegin, BgLoad(second)]);
            && t.fg == FgPassing(0, []) && t.read == s.read && t.loads == s.loads
            && t.bg == BgLoading([second]) && t.sources == 1 && t.core.Active() == s.core.Active()
  {
    hide Run;
    RunConcat(s, [BgSignal, FgCheck, FgClearLatch], [Request, BgCheck, BgClearLatch]);
    RunConcat(s, [BgSignal, FgCheck, FgClearLatch] + [Request, BgCheck, BgClearLatch], [BgBegin, BgLoad(second)]);
    RunThree(s, BgSignal, FgCheck, FgClearLatch);
    var t := Step(Step(Step(s, BgSignal), FgCheck), FgClearLatch);
    RunThree(t, Request, BgCheck, BgClearLatch);
    RunTwo(Step(Step(Step(t, Request), BgCheck), BgClearLatch), BgBegin, BgLoad(second));
  }

  /** It happens: a second request comes while the foreground passes on the first load, and one
      reload of a configurable finds one key in the first load and the other in the second. */
  lemma ReloadsMix(first: Values, second: Values, a: string, b: string) returns (events: seq<Event>)
    ensures Run(Start(1, 1), events).fg
            == FgPassing(0, [Lookup(a, Find(first, a), 1), Lookup(b, Find(second, b), 2)])
  {
    var begin := [Request, BgCheck, BgClearLatch] + [BgBegin, BgLoad(first), BgSwap];
    var more := [BgSignal, FgCheck, FgClearLatch] + [Request, BgCheck, BgClearLatch] + [BgBegin, BgLoad(second)];
    var swap := [FgRead(a), BgSwap, FgRead(b)];
    events := begin + more + swap;
    OneSource(second);
    hide Run, Step, Start, Find, Overlay;
    FirstLoad(first);
    RunKeeps(1, 1, begin + more);
    RunConcat(Start(1, 1), begin, more);
    RunConcat(Start(1, 1), begin + more, swap);
    SecondLoad(Run(Start(1, 1), begin), second);
    SwapSplitsReload(Run(Start(1, 1), begin + more), a, b);
  }

  lemma OneSource(found: Values)
    ensures Overlay(map[], [found]) == found
  {
    assert Overlay(map[], [found]) == Overlay(map[], [found][..0]) + found;
    assert map[] + found == found;
  }

  // ---- One thread alone ----

  /** `execute` without interference. */
  function Executed(c: Core, loaded: seq<Values>): Core {
    if !c.reload then c
    else c.(reload := false).SetInactive(Overlay(map[], loaded)).(firstActive := !c.firstActive, changed := true)
  }

  function Loads(loaded: seq<Values>): seq<Event> {
    if loaded == [] then [] else Loads(loaded[..|loaded| - 1]) + [BgLoad(loaded[|loaded| - 1])]
  }

  lemma {:induction false} RunConcat(s: State, a: seq<Event>, b: seq<Event>)
    ensures Run(s, a + b) == Run(Run(s, a), b)
  {
    hide Step;
    if b == [] {
      assert a + b == a;
    } else {
      var n := |b| - 1;
      assert (a + b)[..|a| + n] == a + b[..n];
      RunConcat(s, a, b[..n]);
    }
  }

  lemma RunOne(s: State, e: Event)
    ensures Run(s, [e]) == Step(s, e)
  {
    hide Step;
    assert [e][..0] == [];
  }

  lemma {:induction false} LoadsRun(s: State, loaded: seq<Values>)
    requires s.bg == BgLoading([]) && s.core.Inactive() == map[] && |loaded| <= s.sources
    ensures Run(s, Loads(loaded))
            == s.(bg := BgLoading(loaded), core := s.core.SetInactive(Overlay(map[], loaded)))
  {
    if loaded == [] {
    } else {
      hide Run;
      var n := |loaded| - 1;
      LoadsRun(s, loaded[..n]);
      RunConcat(s, Loads(loaded[..n]), [BgLoad(loaded[n])]);
      RunOne(Run(s, Loads(loaded[..n])), BgLoad(loaded[n]));
      assert loaded[..n] + [loaded[n]] == loaded;
    }
  }

  /** The steps of the background thread, run without interruption, are what `execute` does:
      one whole load, begun after every request so far, is published. */
  lemma StepsAreExecute(s: State, loaded: seq<Values>)
    requires s.bg == BgIdle && s.core.reload && |loaded| == s.sources
    ensures var t := Run(s, [BgCheck, BgClearLatch, BgBegin] + Loads(loaded) + [BgSwap, BgSignal]);
            && t.core == Executed(s.core, loaded) && t.bg == BgIdle
            && t.published == s.requests && t.loads == s.loads + [loaded]
  {
    hide Overlay, Loads;
    var begun := [BgCheck, BgClearLatch, BgBegin];
    var s1 := Step(Step(Step(s, BgCheck), BgClearLatch), BgBegin);
    assert Run(s, begun) == s1 by {
      RunThree(s, BgCheck, BgClearLatch, BgBegin);
    }
    RunConcat(s, begun, Loads(loaded));
    LoadsRun(s1, loaded);
    var s2 := Run(s1, Loads(loaded));
    RunConcat(s, begun + Loads(loaded), [BgSwap, BgSignal]);
    RunTwo(s2, BgSwap, BgSignal);
  }

  function Reads(keys: seq<string>): seq<Event> {
    if keys == [] then [] else Reads(keys[..|keys| - 1]) + [FgRead(keys[|keys| - 1])]
  }

  /** Each configurable looks up its keys, one configurable after the other. */
  function Passes(keys: seq<seq<string>>): seq<Event> {
    if keys == [] then [] else Passes(keys[..|keys| - 1]) + (Reads(keys[|keys| - 1]) + [FgNext])
  }

  /** The lookups are of these keys, in this load, and found what the values hold under them. */
  ghost predicate Answers(lookups: seq<Lookup>, keys: seq<string>, values: Values, load: nat) {
    && |lookups| == |keys|
    && forall k :: 0 <= k < |keys| ==>
         && lookups[k].key == keys[k] && lookups[k].load == load
         && (keys[k] in values ==> lookups[k].found == Some(values[keys[k]]))
         && (keys[k] !in values ==> lookups[k].found == None)
  }

  lemma AnswersSnoc(lookups: seq<Lookup>, keys: seq<string>, values: Values, load: nat, key: string)
    requires Answers(lookups, keys, values, load)
    ensures Answers(lookups + [Lookup(key, Find(values, key), load)], keys + [key], values, load)
  {
  }

  lemma ReadStep(s: State, key: string)
    requires s.fg.FgPassing? && s.fg.next < |s.read|
    ensures Step(s, FgRead(key))
            == s.(fg := FgPassing(s.fg.next, s.fg.sofar + [Lookup(key, Find(s.core.Active(), key), |s.loads|)]))
    ensures Step(s, FgNext) == s.(read := s.read[s.fg.next := Some(s.fg.sofar)], fg := FgPassing(s.fg.next + 1, []))
  {
    hide Find;
  }

  lemma {:induction false} ReadsRun(s: State, keys: seq<string>)
    requires s.fg.FgPassing? && s.fg.next < |s.read| && s.fg.sofar == []
    ensures var t := Run(s, Reads(keys));
            && t.fg.FgPassing? && t == s.(fg := FgPassing(s.fg.next, t.fg.sofar))
            && Answers(t.fg.sofar, keys, s.core.Active(), |s.loads|)
  {
    hide Step;
    if keys == [] {
    } else {
      hide Run, Answers, Find, Core.Active;
      var n := |keys| - 1;
      ReadsRun(s, keys[..n]);
      var t := Run(s, Reads(keys[..n]));
      RunConcat(s, Reads(keys[..n]), [FgRead(keys[n])]);
      RunOne(t, FgRead(keys[n]));
      ReadStep(t, keys[n]);
      AnswersSnoc(t.fg.sofar, keys[..n], s.core.Active(), |s.loads|, keys[n]);
      assert keys[..n] + [keys[n]] == keys;
    }
  }

  lemma OnePass(s: State, keys: seq<string>)
    requires s.fg.FgPassing? && s.fg.next < |s.read| && s.fg.sofar == []
    ensures var t := Run(s, Reads(keys) + [FgNext]);
            && |t.read| == |s.read| && t.read[s.fg.next].Some?
            && t == s.(fg := FgPassing(s.fg.next + 1, []), read := s.read[s.fg.next := t.read[s.fg.next]])
            && Answers(t.read[s.fg.next].value, keys, s.core.Active(), |s.loads|)
  {
    hide *;
    ReadsRun(s, keys);
    RunConcat(s, Reads(keys), [FgNext]);
    RunOne(Run(s, Reads(keys)), FgNext);
    ReadStep(Run(s, Reads(keys)), "");
  }

  /** t is s after a pass over the configurables with these keys. */
  ghost predicate Passed(s: State, t: State, keys: seq<seq<string>>) {
    && t == s.(fg := FgPassing(|keys|, []), read := t.read) && |t.read| == |s.read|
    && forall j :: 0 <= j < |keys| ==>
         j < |t.read| && t.read[j].Some? && Answers(t.read[j].value, keys[j], s.core.Active(), |s.loads|)
  }

  lemma PassedOne(s: State, u: State, keys: seq<seq<string>>, last: seq<string>)
    requires Passed(s, u, keys) && |keys| < |s.read|
    ensures Passed(s, Run(u, Reads(last) + [FgNext]), keys + [last])
  {
    hide Run, Answers, Reads, Core.Active;
    OnePass(u, last);
    assert u.core == s.core && u.loads == s.loads;
  }

  lemma {:induction false} PassesRun(s: State, keys: seq<seq<string>>)
    requires s.fg == FgPassing(0, []) && |keys| <= |s.read|
    ensures Passed(s, Run(s, Passes(keys)), keys)
  {
    hide Step;
    if keys == [] {
    } else {
      hide Run, Passed, Reads;
      var n := |keys| - 1;
      PassesRun(s, keys[..n]);
      RunConcat(s, Passes(keys[..n]), Reads(keys[n]) + [FgNext]);
      PassedOne(s, Run(s, Passes(keys[..n])), keys[..n], keys[n]);
      assert keys[..n] + [keys[n]] == keys;
    }
  }

  /** The steps of the foreground thread, run without interruption, are what
      `reloadConfigurables` does after a change: the latch is cleared, each configurable has
      looked up its own keys, found what is published, and the thread is done. */
  lemma StepsAreReload(s: State, keys: seq<seq<string>>)
    requires s.fg == FgIdle && s.core.changed && |keys| == |s.read|
    ensures var t := Run(s, [FgCheck, FgClearLatch] + Passes(keys) + [FgFinish]);
            && t == s.(core := s.core.(changed := false), read := t.read) && |t.read| == |keys|
            && forall j :: 0 <= j < |keys| ==>
                 t.read[j].Some? && Answers(t.read[j].value, keys[j], s.core.Active(), |s.loads|)
  {
    hide Run, Passes, Answers;
    var s1 := Step(Step(s, FgCheck), FgClearLatch);
    assert s1.core.Active() == s.core.Active();
    RunTwo(s, FgCheck, FgClearLatch);
    RunConcat(s, [FgCheck, FgClearLatch], Passes(keys));
    PassesRun(s1, keys);
    RunConcat(s, [FgCheck, FgClearLatch] + Passes(keys), [FgFinish]);
    RunOne(Run(s1, Passes(keys)), FgFinish);
  }

  lemma RunTwo(s: State, a: Event, b: Event)
    ensures Run(s, [a, b]) == Step(Step(s, a), b)
  {
    hide Step;
    assert [a, b][..1] == [a] && [a][..0] == [];
    assert Run(s, [a]) == Step(Run(s, []), a);
  }

  lemma RunThree(s: State, a: Event, b: Event, c: Event)
    ensures Run(s, [a, b, c]) == Step(Step(Step(s, a), b), c)
  {
    hide Step;
    RunTwo(s, a, b);
    assert [a, b, c][..2] == [a, b];
  }

  // ---- The object ----

  /** A source puts its entries in the map it is given; it may fail after putting in some. */
  class ConfigSource {
    var found: Values
    var ok: bool

    constructor (found: Values, ok: bool)
      ensures this.found == found && this.ok == ok
    {
      this.found, this.ok := found, ok;
    }
  }

  function Found(sources: seq<ConfigSource>): seq<Values>
    reads set s | s in sources
  {
    if sources == [] then [] else Found(sources[..|sources| - 1]) + [sources[|sources| - 1].found]
  }

  lemma FoundSnoc(sources: seq<ConfigSource>, source: ConfigSource)
    ensures Found(sources + [source]) == Found(sources) + [source.found]
  {
    assert (sources + [source])[..|sources|] == sources;
  }

  lemma NothingFound()
    ensures Found([]) == [] && Overlay(map[], []) == map[]
  {
  }

  class Configurable {
    /** What it read last, and whether it accepts what it reads. */
    var values: Values
    var accepts: bool

    constructor (accepts: bool)
      ensures this.accepts == accepts && values == map[]
    {
      this.accepts, values := accepts, map[];
    }

    method ReloadConfig(published: Values) returns (ok: bool)
      modifies this`values
      ensures values == published && ok == accepts
    {
      values := published;
      ok := accepts;
    }
  }

  class Config {
    var configSources: seq<ConfigSource>
    var configurables: seq<Configurable>
    var reloadLatch: bool
    var changed: bool
    var firstActive: bool
    var values1: Values
    var values2: Values
    var failures: nat

    function State(): Core
      reads this
    {
      Core(reloadLatch, changed, firstActive, values1, values2)
    }

    constructor ()
      ensures State() == Core(false, false, true, map[], map[]) && configSources == [] && configurables == []
    {
      configSources, configurables, failures := [], [], 0;
      reloadLatch, changed, firstActive, values1, values2 := false, false, true, map[], map[];
    }

    method AddConfigSource(s: ConfigSource)
      modifies this`configSources
      ensures configSources == old(configSources) + [s]
    {
      configSources := configSources + [s];
    }

    method AddConfigurable(c: Configurable)
      modifies this`configurables
      ensures configurables == old(configurables) + [c]
    {
      configurables := configurables + [c];
    }

    method ReloadConfig()
      modifies this`reloadLatch
      ensures reloadLatch
    {
      reloadLatch := true;
    }

    /** A source adds to the inactive map; that it failed is logged and nothing else. */
    method LoadFrom(source: ConfigSource)
      modifies this`values1, this`values2, this`failures
      ensures State() == old(State()).SetInactive(old(State()).Inactive() + source.found)
      ensures failures == old(failures) + if source.ok then 0 else 1
    {
      if firstActive {
        values2 := values2 + source.found;
      } else {
        values1 := values1 + source.found;
      }
      if !source.ok {
        failures := failures + 1;
      }
    }

    method Execute()
      modifies this`reloadLatch, this`changed, this`firstActive, this`values1, this`values2, this`failures
      ensures State() == Executed(old(State()), Found(configSources))
    {
      hide Found, Overlay;
      if !reloadLatch {
        return;
      }
      reloadLatch := false;
      ghost var cleared := State();
      if firstActive {
        values2 := map[];
      } else {
        values1 := map[];
      }
      NothingFound();
      assert configSources[..0] == [];
      var i := 0;
      while i < |configSources|
        invariant 0 <= i <= |configSources|
        invariant State() == cleared.SetInactive(Overlay(map[], Found(configSources[..i])))
      {
        FoundSnoc(configSources[..i], configSources[i]);
        assert configSources[..i] + [configSources[i]] == configSources[..i + 1];
        OverlaySnoc(map[], Found(configSources[..i]), configSources[i].found);
        LoadFrom(configSources[i]);
        i := i + 1;
      }
      assert configSources[..i] == configSources;
      firstActive := !firstActive;
      changed := true;
    }

    /** Every configurable reads the published values; the result says whether all accept. */
    method ReloadConfigurables() returns (success: bool)
      modifies this`changed, configurables
      ensures !changed
      ensures !old(changed) ==> success && forall c :: c in configurables ==> c.values == old(c.values)
      ensures old(changed) ==>
                && (forall c :: c in configurables ==> c.values == State().Active())
                && (success <==> forall c :: c in configurables ==> c.accepts)
    {
      if !changed {
        return true;
      }
      changed := false;
      success := true;
      ghost var published := State().Active();
      var i := 0;
      while i < |configurables|
        invariant 0 <= i <= |configurables|
        invariant !changed && State().Active() == published
        invariant forall c :: c in configurables[..i] ==> c.values == published
        invariant success <==> forall c :: c in configurables[..i] ==> c.accepts
      {
        assert configurables[..i + 1] == configurables[..i] + [configurables[i]];
        var ok := configurables[i].ReloadConfig(if firstActive then values1 else values2);
        if !ok {
          success := false;
        }
        i := i + 1;
      }
      assert configurables[..i] == configurables;
    }
  }
}
