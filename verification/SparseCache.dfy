/** The sparse-index cache that lives on sliding-window metadata: layers of the same type
    share one result per step; C4A layers, whose top-k rows change from layer to layer,
    always recompute. */
module SparseCache {

  datatype LayerType = SwaOnly | C4A | C128A

  function KeyOf(compressRatio: int): LayerType {
    if compressRatio <= 1 then SwaOnly else if compressRatio == 128 then C128A else C4A
  }

  /** The index construction: for cached layer types a function of the metadata's inputs,
      for C4A also of the current top-k rows. */
  datatype Kernel<!I, !T, !R> = Kernel(shared: (LayerType, I) -> R, c4a: (I, T) -> R)
  {
    function Fresh(k: LayerType, inputs: I, topk: T): R {
      if k == C4A then c4a(inputs, topk) else shared(k, inputs)
    }
  }

  /** The cached results of `keys` survive a draft update from `inputs` to `newInputs`. */
  ghost predicate DraftKeeps<I, R>(shared: (LayerType, I) -> R, keys: set<LayerType>, numDecodeTokens: nat,
                                   inputs: I, newInputs: I)
  {
    numDecodeTokens > 0 || forall k :: k in keys ==> shared(k, newInputs) == shared(k, inputs)
  }

  /** A draft update is safe whatever the index construction exactly when there are decode
      tokens, nothing is cached, or the inputs have not changed. */
  lemma DraftIsSafeIff<I(!new)>(keys: set<LayerType>, numDecodeTokens: nat, inputs: I, newInputs: I)
    ensures (forall shared: (LayerType, I) -> int :: DraftKeeps(shared, keys, numDecodeTokens, inputs, newInputs)) <==>
            numDecodeTokens > 0 || keys == {} || newInputs == inputs
  {
    if numDecodeTokens == 0 && keys != {} && newInputs != inputs {
      var k :| k in keys;
      var shared := (k: LayerType, i: I) => if i == inputs then 0 else 1;
      assert shared(k, newInputs) != shared(k, inputs);
      assert !DraftKeeps(shared, keys, numDecodeTokens, inputs, newInputs);
    }
  }

  class Metadata<I, T, R> {
    const kernel: Kernel<I, T, R>
    var inputs: I
    var numDecodeTokens: nat
    var cache: map<LayerType, R>

    /** Every cached result is what a recomputation would give. */
    ghost predicate Coherent()
      reads this
    {
      forall k :: k in cache ==> k != C4A && cache[k] == kernel.shared(k, inputs)
    }

    constructor (kernel: Kernel<I, T, R>, inputs: I, numDecodeTokens: nat)
      ensures Coherent() && this.kernel == kernel && cache == map[]
      ensures this.inputs == inputs && this.numDecodeTokens == numDecodeTokens
    {
      this.kernel, this.inputs, this.numDecodeTokens, cache := kernel, inputs, numDecodeTokens, map[];
    }

    /** What a layer is served. */
    method Serve(compressRatio: int, topk: T) returns (r: R)
      modifies this`cache
      ensures old(Coherent()) ==> Coherent() && r == kernel.Fresh(KeyOf(compressRatio), inputs, topk)
      ensures r == if KeyOf(compressRatio) in old(cache) then old(cache)[KeyOf(compressRatio)]
                   else kernel.Fresh(KeyOf(compressRatio), inputs, topk)
      ensures cache == if KeyOf(compressRatio) == C4A || KeyOf(compressRatio) in old(cache) then old(cache)
                       else old(cache)[KeyOf(compressRatio) := kernel.shared(KeyOf(compressRatio), inputs)]
      ensures old(Coherent()) && compressRatio <= 1 ==> r == kernel.shared(SwaOnly, inputs)
      ensures old(Coherent()) && compressRatio == 128 ==> r == kernel.shared(C128A, inputs)
      ensures C4A !in old(cache) && compressRatio > 1 && compressRatio != 128 ==>
                r == kernel.c4a(inputs, topk) && cache == old(cache)
      ensures compressRatio <= 1 ==> SwaOnly in cache && cache[SwaOnly] == r
      ensures compressRatio == 128 ==> C128A in cache && cache[C128A] == r
    {
      var key := KeyOf(compressRatio);
      if key in cache {
        r := cache[key];
      } else {
        r := if key == C4A then kernel.c4a(inputs, topk) else kernel.shared(key, inputs);
        if key != C4A {
          cache := cache[key := r];
        }
      }
    }

    /** A draft step: the caller has rewritten the input tensors, and the update refreshes
        the metadata.  Without decode tokens it returns early and keeps the cache. */
    method UpdateDraft(newInputs: I)
      modifies this`inputs, this`cache
      ensures inputs == newInputs
      ensures cache == if numDecodeTokens == 0 then old(cache) else map[]
      ensures numDecodeTokens == old(numDecodeTokens)
      ensures old(Coherent()) ==>
                (Coherent() <==> DraftKeeps(kernel.shared, old(cache).Keys, numDecodeTokens, old(inputs), newInputs))
    {
      inputs := newInputs;
      if numDecodeTokens == 0 {
        return;
      }
      cache := map[];
    }
  }

  // Whole runs.

  datatype Event<I, T> =
    | Rebuild(inputs: I, numDecodeTokens: nat)
    | Draft(inputs: I)
    | Layer(compressRatio: int, topk: T)

  /** What a run serves if every request is recomputed. */
  function Uncached<I, T, R>(kernel: Kernel<I, T, R>, inputs: I, events: seq<Event<I, T>>): seq<R> {
    if events == [] then []
    else match events[0]
      case Rebuild(i, _) => Uncached(kernel, i, events[1..])
      case Draft(i) => Uncached(kernel, i, events[1..])
      case Layer(ratio, topk) =>
        [kernel.Fresh(KeyOf(ratio), inputs, topk)] + Uncached(kernel, inputs, events[1..])
  }

  /** What a run serves with the cache. */
  function Cached<I, T, R>(kernel: Kernel<I, T, R>, inputs: I, n: nat, cache: map<LayerType, R>,
                           events: seq<Event<I, T>>): seq<R>
    decreases events
  {
    if events == [] then []
    else match events[0]
      case Rebuild(i, n') => Cached(kernel, i, n', map[], events[1..])
      case Draft(i) => Cached(kernel, i, n, if n == 0 then cache else map[], events[1..])
      case Layer(ratio, topk) =>
        var key := KeyOf(ratio);
        var r := if key in cache then cache[key] else kernel.Fresh(key, inputs, topk);
        var cache' := if key == C4A || key in cache then cache else cache[key := kernel.shared(key, inputs)];
        [r] + Cached(kernel, inputs, n, cache', events[1..])
  }

  /** Every cache hit of the run finds an entry computed from the current inputs; `origin`
      remembers what each entry was computed from. */
  ghost predicate HitsAreCurrent<I, T>(inputs: I, n: nat, origin: map<LayerType, I>, events: seq<Event<I, T>>)
    decreases events
  {
    events == [] ||
    match events[0]
    case Rebuild(i, n') => HitsAreCurrent(i, n', map[], events[1..])
    case Draft(i) => HitsAreCurrent(i, n, if n == 0 then origin else map[], events[1..])
    case Layer(ratio, _) =>
      var key := KeyOf(ratio);
      if key in origin then origin[key] == inputs && HitsAreCurrent(inputs, n, origin, events[1..])
      else HitsAreCurrent(inputs, n, if key == C4A then origin else origin[key := inputs], events[1..])
  }

  /** The cache whose entries were computed from `origin`. */
  ghost function Entries<I, R>(shared: (LayerType, I) -> R, origin: map<LayerType, I>): map<LayerType, R> {
    map k | k in origin :: shared(k, origin[k])
  }

  lemma EntriesGrow<I, R>(shared: (LayerType, I) -> R, origin: map<LayerType, I>, key: LayerType, inputs: I)
    ensures Entries(shared, origin[key := inputs]) == Entries(shared, origin)[key := shared(key, inputs)]
  {
  }

  lemma {:induction false} CurrentHitsServeFresh<I, T, R>(kernel: Kernel<I, T, R>, inputs: I, n: nat,
                                                          origin: map<LayerType, I>, events: seq<Event<I, T>>)
    requires C4A !in origin && HitsAreCurrent(inputs, n, origin, events)
    ensures Cached(kernel, inputs, n, Entries(kernel.shared, origin), events) == Uncached(kernel, inputs, events)
    decreases events
  {
    if events != [] {
      var empty: map<LayerType, I> := map[];
      assert Entries(kernel.shared, empty) == map[];
      match events[0]
      case Rebuild(i, n') => CurrentHitsServeFresh(kernel, i, n', map[], events[1..]);
      case Draft(i) => CurrentHitsServeFresh(kernel, i, n, if n == 0 then origin else map[], events[1..]);
      case Layer(ratio, _) =>
        var key := KeyOf(ratio);
        EntriesGrow(kernel.shared, origin, key, inputs);
        var origin' := if key == C4A || key in origin then origin else origin[key := inputs];
        CurrentHitsServeFresh(kernel, inputs, n, origin', events[1..]);
    }
  }

  /** The construction that hands its inputs through, so that a stale entry shows. */
  ghost function Transparent<I, T>(): Kernel<I, T, I> {
    Kernel((k: LayerType, i: I) => i, (i: I, t: T) => i)
  }

  lemma {:induction false} StaleHitShows<I, T>(inputs: I, n: nat, origin: map<LayerType, I>, events: seq<Event<I, T>>)
    requires C4A !in origin
    requires Cached(Transparent<I, T>(), inputs, n, origin, events) == Uncached(Transparent<I, T>(), inputs, events)
    ensures HitsAreCurrent(inputs, n, origin, events)
    decreases events
  {
    if events != [] {
      var kernel := Transparent<I, T>();
      match events[0]
      case Rebuild(i, n') => StaleHitShows(i, n', map[], events[1..]);
      case Draft(i) => StaleHitShows(i, n, if n == 0 then origin else map[], events[1..]);
      case Layer(ratio, _) =>
        var key := KeyOf(ratio);
        var origin' := if key == C4A || key in origin then origin else origin[key := inputs];
        var c, u := Cached(kernel, inputs, n, origin, events), Uncached(kernel, inputs, events);
        assert c[0] == u[0] && c[1..] == u[1..];
        assert c[1..] == Cached(kernel, inputs, n, origin', events[1..]);
        assert u[1..] == Uncached(kernel, inputs, events[1..]);
        StaleHitShows(inputs, n, origin', events[1..]);
    }
  }

  ghost predicate ServesFresh<I, T, R>(kernel: Kernel<I, T, R>, inputs: I, n: nat, events: seq<Event<I, T>>) {
    Cached(kernel, inputs, n, map[], events) == Uncached(kernel, inputs, events)
  }

  /** Main result: over any run of builds, draft updates and layers, cached serving equals
      recomputing each time, for every index construction, exactly when every cache hit
      finds an entry computed from the current inputs. */
  lemma CachedEqualsUncachedIff<I(!new), T(!new)>(inputs: I, n: nat, events: seq<Event<I, T>>)
    ensures (forall kernel: Kernel<I, T, I> :: ServesFresh(kernel, inputs, n, events)) <==>
            HitsAreCurrent(inputs, n, map[], events)
  {
    var empty: map<LayerType, I> := map[];
    if HitsAreCurrent(inputs, n, empty, events) {
      forall kernel: Kernel<I, T, I>
        ensures ServesFresh(kernel, inputs, n, events)
      {
        CurrentHitsServeFresh(kernel, inputs, n, empty, events);
        assert Entries(kernel.shared, empty) == map[];
      }
    } else if ServesFresh(Transparent<I, T>(), inputs, n, events) {
      StaleHitShows(inputs, n, empty, events);
    }
  }

  /** A sufficient condition on the drafts alone: none changes the inputs of metadata that
      has no decode tokens and already served a cached layer type. */
  ghost predicate DraftsAreSafe<I, T>(inputs: I, n: nat, keys: set<LayerType>, events: seq<Event<I, T>>)
    decreases events
  {
    events == [] ||
    match events[0]
    case Rebuild(i, n') => DraftsAreSafe(i, n', {}, events[1..])
    case Draft(i) =>
      (n > 0 || keys == {} || i == inputs) && DraftsAreSafe(i, n, if n == 0 then keys else {}, events[1..])
    case Layer(ratio, _) =>
      DraftsAreSafe(inputs, n, if KeyOf(ratio) == C4A then keys else keys + {KeyOf(ratio)}, events[1..])
  }

  lemma {:induction false} SafeDraftsKeepHitsCurrent<I, T>(inputs: I, n: nat, origin: map<LayerType, I>,
                                                           events: seq<Event<I, T>>)
    requires C4A !in origin && (forall k :: k in origin ==> origin[k] == inputs)
    requires DraftsAreSafe(inputs, n, origin.Keys, events)
    ensures HitsAreCurrent(inputs, n, origin, events)
    decreases events
  {
    if events != [] {
      var empty: map<LayerType, I> := map[];
      assert empty.Keys == {};
      match events[0]
      case Rebuild(i, n') => SafeDraftsKeepHitsCurrent(i, n', empty, events[1..]);
      case Draft(i) =>
        var origin' := if n == 0 then origin else empty;
        assert origin.Keys == {} ==> origin == empty;
        SafeDraftsKeepHitsCurrent(i, n, origin', events[1..]);
      case Layer(ratio, _) =>
        var key := KeyOf(ratio);
        var origin' := if key == C4A || key in origin then origin else origin[key := inputs];
        assert origin'.Keys == if key == C4A then origin.Keys else origin.Keys + {key};
        SafeDraftsKeepHitsCurrent(inputs, n, origin', events[1..]);
    }
  }

  /** Runs in which every build has decode tokens, and runs without draft updates. */
  ghost predicate AlwaysDecodes<I, T>(n: nat, events: seq<Event<I, T>>) {
    n > 0 && forall k :: 0 <= k < |events| && events[k].Rebuild? ==> events[k].numDecodeTokens > 0
  }

  ghost predicate NeverDrafts<I, T>(events: seq<Event<I, T>>) {
    forall k :: 0 <= k < |events| ==> !events[k].Draft?
  }

  /** Both serve only current entries: every build, and every draft update with decode tokens,
      starts from an empty cache. */
  lemma {:induction false} PlainRunsAreCurrent<I, T>(inputs: I, n: nat, origin: map<LayerType, I>,
                                                     events: seq<Event<I, T>>)
    requires C4A !in origin && (forall k :: k in origin ==> origin[k] == inputs)
    requires AlwaysDecodes(n, events) || NeverDrafts(events)
    ensures HitsAreCurrent(inputs, n, origin, events)
    decreases events
  {
    if events != [] {
      var empty: map<LayerType, I> := map[];
      var rest := events[1..];
      assert forall k :: 0 <= k < |rest| ==> rest[k] == events[k + 1];
      match events[0]
      case Rebuild(i, n') => PlainRunsAreCurrent(i, n', empty, rest);
      case Draft(i) => PlainRunsAreCurrent(i, n, empty, rest);
      case Layer(ratio, _) =>
        var key := KeyOf(ratio);
        PlainRunsAreCurrent(inputs, n, if key == C4A || key in origin then origin else origin[key := inputs], rest);
    }
  }

  // Single layers of a run.

  /** The inputs in force after a run. */
  function InputsAfter<I, T>(inputs: I, events: seq<Event<I, T>>): I {
    if events == [] then inputs
    else
      var last := events[|events| - 1];
      if last.Layer? then InputsAfter(inputs, events[..|events| - 1]) else last.inputs
  }

  lemma {:induction false} InputsAfterFirst<I, T>(inputs: I, events: seq<Event<I, T>>)
    requires events != []
    ensures InputsAfter(inputs, events) ==
            InputsAfter(if events[0].Layer? then inputs else events[0].inputs, events[1..])
  {
    var n := |events| - 1;
    if n > 0 && events[n].Layer? {
      InputsAfterFirst(inputs, events[..n]);
      assert events[..n][1..] == events[1..][..n - 1];
    }
  }

  /** A further layer adds one result.  For a C4A layer it is always built from the layer's
      own top-k rows and the inputs in force; for the others it is the shared construction
      from these inputs, if all hits of the run are current. */
  lemma {:induction false} LastLayer<I, T, R>(kernel: Kernel<I, T, R>, inputs: I, n: nat, origin: map<LayerType, I>,
                                              events: seq<Event<I, T>>, ratio: int, topk: T)
    returns (served: R)
    requires C4A !in origin
    ensures Cached(kernel, inputs, n, Entries(kernel.shared, origin), events + [Layer(ratio, topk)]) ==
            Cached(kernel, inputs, n, Entries(kernel.shared, origin), events) + [served]
    ensures ratio > 1 && ratio != 128 ==> served == kernel.c4a(InputsAfter(inputs, events), topk)
    ensures HitsAreCurrent(inputs, n, origin, events + [Layer(ratio, topk)]) ==>
              && (ratio <= 1 ==> served == kernel.shared(SwaOnly, InputsAfter(inputs, events)))
              && (ratio == 128 ==> served == kernel.shared(C128A, InputsAfter(inputs, events)))
    decreases events
  {
    var key, last := KeyOf(ratio), Layer(ratio, topk);
    if events == [] {
      var cache := Entries(kernel.shared, origin);
      served := if key in cache then cache[key] else kernel.Fresh(key, inputs, topk);
      assert events + [last] == [last];
    } else {
      var empty: map<LayerType, I> := map[];
      assert Entries(kernel.shared, empty) == map[];
      assert (events + [last])[1..] == events[1..] + [last];
      InputsAfterFirst(inputs, events);
      match events[0]
      case Rebuild(i, n') => served := LastLayer(kernel, i, n', empty, events[1..], ratio, topk);
      case Draft(i) =>
        served := LastLayer(kernel, i, n, if n == 0 then origin else empty, events[1..], ratio, topk);
      case Layer(ratio', _) =>
        var key' := KeyOf(ratio');
        EntriesGrow(kernel.shared, origin, key', inputs);
        var origin' := if key' == C4A || key' in origin then origin else origin[key' := inputs];
        served := LastLayer(kernel, inputs, n, origin', events[1..], ratio, topk);
    }
  }

  /** Runs the events on metadata objects. */
  method RunEvents<I, T, R>(kernel: Kernel<I, T, R>, inputs: I, numDecodeTokens: nat, events: seq<Event<I, T>>)
    returns (served: seq<R>)
    ensures served == Cached(kernel, inputs, numDecodeTokens, map[], events)
    ensures HitsAreCurrent(inputs, numDecodeTokens, map[], events) ==> served == Uncached(kernel, inputs, events)
    ensures DraftsAreSafe(inputs, numDecodeTokens, {}, events) ==> served == Uncached(kernel, inputs, events)
  {
    var md := new Metadata(kernel, inputs, numDecodeTokens);
    served := [];
    for k := 0 to |events|
      invariant fresh(md) && md.kernel == kernel
      invariant served + Cached(kernel, md.inputs, md.numDecodeTokens, md.cache, events[k..]) ==
                Cached(kernel, inputs, numDecodeTokens, map[], events)
    {
      assert events[k..][1..] == events[k + 1..];
      match events[k]
      case Rebuild(i, n) => md := new Metadata(kernel, i, n);
      case Draft(i) => md.UpdateDraft(i);
      case Layer(ratio, topk) =>
        var r := md.Serve(ratio, topk);
        served := served + [r];
    }
    ghost var empty: map<LayerType, I> := map[];
    assert Entries(kernel.shared, empty) == map[] && empty.Keys == {};
    if DraftsAreSafe(inputs, numDecodeTokens, {}, events) {
      SafeDraftsKeepHitsCurrent(inputs, numDecodeTokens, empty, events);
    }
    if HitsAreCurrent(inputs, numDecodeTokens, empty, events) {
      CurrentHitsServeFresh(kernel, inputs, numDecodeTokens, empty, events);
    }
  }

  /** The failing case: on metadata without decode tokens a draft update that changes the
      inputs leaves a stale result behind, and the next layer of that type is served it. */
  method DraftWithoutDecodesServesStale() returns (served: int, current: int)
    ensures served == 1 && current == 2
  {
    var kernel := Kernel((k: LayerType, i: int) => i, (i: int, t: int) => i);
    var md := new Metadata(kernel, 1, 0);
    var _ := md.Serve(1, 0);
    md.UpdateDraft(2);
    served := md.Serve(1, 0);
    current := kernel.Fresh(KeyOf(1), md.inputs, 0);
  }
}
