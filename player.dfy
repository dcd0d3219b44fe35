/**
 * The player context of src/player.c: the playback state store and its
 * transition rule, the observer registry, and the sequential decisions of the
 * orchestrator loop (catalog swap while stopped, then one track cycle after
 * another). Threads, the mutex and the condition variable are not modelled;
 * callbacks, the catalog and the decoder/source pair are opaque, and what the
 * code does with them is recorded in ghost logs.
 */
module Player {
  import opened Wrappers

  /** state_t. `Unknown` is only ever used to ask for the current state. */
  datatype State = Unknown | Stop | Change | Play | Pause | Error

  /** A registered observer (player_event_t): its id and the opaque callback and context handles. */
  datatype Observer = Observer(id: int, cb: nat, cbctx: nat)

  /** One invocation of an observer's callback, with the state it was given. */
  datatype Notification = Notification(observer: int, state: State)

  /** A catalog handle (media_t). `hasNext` says whether its operation table provides `next`. */
  datatype Media = Media(handle: nat, hasNext: bool)

  /** The decoder/source pair opened for one track (player_decoder_t), tagged with the track's id. */
  datatype Binding = Binding(mediaid: int)

  /** The operations the player invokes on a catalog. */
  datatype CatalogCall = NextCall(media: Media) | PlayCall(media: Media) | EndCall(media: Media) | DestroyCall(media: Media)

  /**
   * _player_play building a decoder/source pair for a track, `ctx->current`
   * receiving that pair, and the installed pair being torn down and freed.
   */
  datatype BindingStep = Build(mediaid: int) | Install(mediaid: int) | Teardown(mediaid: int)

  /**
   * What one pass of the orchestrator's outer loop came to: parked while
   * stopped, out of the loop, back to stopped after `cycles` track cycles, or
   * still playing when the given catalog outcomes ran out.
   */
  datatype Pass = Parked | Exited | Ended(cycles: nat) | Playing(cycles: nat)

  // ---------------------------------------------------------------------------
  // The transition rule of player_state

  /** A request changes the state when it is not a query and differs from the current state. */
  predicate Changes(cur: State, req: State)
  {
    req != Unknown && cur != req
  }

  /** The state player_state leaves behind: whatever was asked for, except for a query. */
  function Transition(cur: State, req: State): (next: State)
    ensures req == Unknown ==> next == cur
    ensures req != Unknown ==> next == req
    ensures next == cur <==> !Changes(cur, req)
  {
    if Changes(cur, req) then req else cur
  }

  /** The callbacks player_state runs only when the request is a change to Pause. */
  predicate FiresObservers(cur: State, req: State)
  {
    Changes(cur, req) && req == Pause
  }

  /** Every observer notified once with state `s`, in registry order (newest first). */
  function FanOut(obs: seq<Observer>, s: State): (log: seq<Notification>)
    ensures |log| == |obs|
    ensures forall i :: 0 <= i < |obs| ==> log[i] == Notification(obs[i].id, s)
  {
    if obs == [] then [] else [Notification(obs[0].id, s)] + FanOut(obs[1..], s)
  }

  /** `n` copies of `s`, one after the other. */
  function Repeat<T>(s: seq<T>, n: nat): (r: seq<T>)
    ensures |r| == n * |s|
  {
    if n == 0 then [] else s + Repeat(s, n - 1)
  }

  lemma {:induction false} RepeatOneMore<T>(s: seq<T>, n: nat)
    ensures Repeat(s, n + 1) == Repeat(s, n) + s
  {
    if n > 0 {
      RepeatOneMore(s, n - 1);
    }
  }

  // ---------------------------------------------------------------------------
  // The observer registry of player_onchange / player_removeevent

  /** Ids strictly decrease from the head of the list to its tail. */
  ghost predicate Descending(obs: seq<Observer>)
  {
    forall i, j :: 0 <= i < j < |obs| ==> obs[i].id > obs[j].id
  }

  /** The id player_onchange gives a new observer: head id + 1, or 0 for an empty list. */
  function NextId(obs: seq<Observer>): (id: int)
    ensures Descending(obs) ==> forall i :: 0 <= i < |obs| ==> obs[i].id < id
  {
    if obs == [] then 0 else obs[0].id + 1
  }

  /** The position of the first observer with id `id`, if any. */
  function FirstWithId(obs: seq<Observer>, id: int): (r: Option<nat>)
    ensures r.Some? ==> r.value < |obs| && obs[r.value].id == id && forall i :: 0 <= i < r.value ==> obs[i].id != id
    ensures r.None? ==> forall i :: 0 <= i < |obs| ==> obs[i].id != id
  {
    if obs == [] then None
    else if obs[0].id == id then Some(0)
    else match FirstWithId(obs[1..], id)
      case None => None
      case Some(k) => Some(k + 1)
  }

  /** The registry after unlinking the first observer with id `id`, if any. */
  function Unlink(obs: seq<Observer>, id: int): (r: seq<Observer>)
    ensures FirstWithId(obs, id).None? ==> r == obs
    ensures FirstWithId(obs, id).Some? ==> r == obs[..FirstWithId(obs, id).value] + obs[FirstWithId(obs, id).value + 1..]
  {
    if obs == [] then []
    else if obs[0].id == id then obs[1..]
    else
      var rest := Unlink(obs[1..], id);
      if FirstWithId(obs[1..], id).Some? then
        SpliceBehindHead(obs, FirstWithId(obs[1..], id).value);
        [obs[0]] + rest
      else
        assert [obs[0]] + obs[1..] == obs;
        [obs[0]] + rest
  }

  /** Removing entry `k` of the tail, then putting the head back, removes entry `k + 1`. */
  lemma SpliceBehindHead<T>(s: seq<T>, k: nat)
    requires k + 1 < |s|
    ensures [s[0]] + (s[1..][..k] + s[1..][k + 1..]) == s[..k + 1] + s[k + 2..]
  {
    assert [s[0]] + s[1..][..k] == s[..k + 1];
    assert s[1..][k + 1..] == s[k + 2..];
  }

  /** Prepending an observer with the next id keeps the ids strictly descending. */
  lemma RegisterKeepsDescending(obs: seq<Observer>, cb: nat, cbctx: nat)
    requires Descending(obs)
    ensures Descending([Observer(NextId(obs), cb, cbctx)] + obs)
  {
    var r := [Observer(NextId(obs), cb, cbctx)] + obs;
    forall i, j | 0 <= i < j < |r| ensures r[i].id > r[j].id {
      if i > 0 {
        assert r[i] == obs[i - 1] && r[j] == obs[j - 1];
      } else {
        assert r[j] == obs[j - 1];
      }
    }
  }

  /** Two registrations in a row get consecutive ids. */
  lemma ConsecutiveIds(obs: seq<Observer>, cb: nat, cbctx: nat)
    ensures NextId([Observer(NextId(obs), cb, cbctx)] + obs) == NextId(obs) + 1
  {
  }

  /** Dropping one observer keeps the ids strictly descending. */
  lemma DropKeepsDescending(obs: seq<Observer>, k: nat)
    requires Descending(obs)
    requires k < |obs|
    ensures Descending(obs[..k] + obs[k + 1..])
  {
    var r := obs[..k] + obs[k + 1..];
    forall i, j | 0 <= i < j < |r| ensures r[i].id > r[j].id {
      var i' := if i < k then i else i + 1;
      var j' := if j < k then j else j + 1;
      assert r[i] == obs[i'] && r[j] == obs[j'];
    }
  }

  /** Unlinking keeps the ids strictly descending and leaves no observer with that id. */
  lemma UnlinkKeepsDescending(obs: seq<Observer>, id: int)
    requires Descending(obs)
    ensures Descending(Unlink(obs, id))
    ensures forall i :: 0 <= i < |Unlink(obs, id)| ==> Unlink(obs, id)[i].id != id
  {
    if FirstWithId(obs, id).Some? {
      var k := FirstWithId(obs, id).value;
      DropKeepsDescending(obs, k);
      var r := obs[..k] + obs[k + 1..];
      forall i | 0 <= i < |r| ensures r[i].id != id {
        assert r[i] == obs[if i < k then i else i + 1];
      }
    }
  }

  /**
   * The documented id-reuse edge case: once the newest observer is removed, the
   * next registration is given the id that observer had.
   */
  lemma RemovedHeadIdIsReissued(a: Observer, b: Observer)
    requires a.id == 1 && b.id == 0
    ensures NextId(Unlink([a, b], 1)) == 1
  {
  }

  // ---------------------------------------------------------------------------
  // The binding history of the track cycle

  /** The change a step makes to the number of installed bindings. */
  function Delta(step: BindingStep): int
  {
    match step
    case Build(_) => 0
    case Install(_) => 1
    case Teardown(_) => -1
  }

  /** The change a step makes to the number of decoder/source pairs in existence. */
  function LiveDelta(step: BindingStep): int
  {
    match step
    case Build(_) => 1
    case Install(_) => 0
    case Teardown(_) => -1
  }

  /** How many bindings are installed after the steps of `trace`. */
  function Installed(trace: seq<BindingStep>): int
  {
    if trace == [] then 0 else Installed(trace[..|trace| - 1]) + Delta(trace[|trace| - 1])
  }

  /** How many decoder/source pairs exist after the steps of `trace`. */
  function Live(trace: seq<BindingStep>): int
  {
    if trace == [] then 0 else Live(trace[..|trace| - 1]) + LiveDelta(trace[|trace| - 1])
  }

  /**
   * After every step of the history, at most one binding was installed and at
   * most two decoder/source pairs existed.
   */
  ghost predicate WithinBounds(trace: seq<BindingStep>)
  {
    trace == [] ||
    (WithinBounds(trace[..|trace| - 1]) && 0 <= Installed(trace) <= 1 && 0 <= Live(trace) <= 2)
  }

  /** WithinBounds read over every prefix of the history. */
  lemma {:induction false} BoundsOnPrefixes(trace: seq<BindingStep>)
    requires WithinBounds(trace)
    ensures forall k :: 0 <= k <= |trace| ==> 0 <= Installed(trace[..k]) <= 1 && 0 <= Live(trace[..k]) <= 2
  {
    if trace != [] {
      var t := trace[..|trace| - 1];
      BoundsOnPrefixes(t);
      forall k | 0 <= k <= |trace| ensures 0 <= Installed(trace[..k]) <= 1 && 0 <= Live(trace[..k]) <= 2 {
        if k < |trace| {
          assert trace[..k] == t[..k];
        } else {
          assert trace[..k] == trace;
        }
      }
    }
  }

  /** A step that keeps both counts within their bounds extends a history within bounds. */
  lemma ExtendHistory(trace: seq<BindingStep>, step: BindingStep)
    requires WithinBounds(trace)
    requires 0 <= Installed(trace) + Delta(step) <= 1
    requires 0 <= Live(trace) + LiveDelta(step) <= 2
    ensures Installed(trace + [step]) == Installed(trace) + Delta(step)
    ensures Live(trace + [step]) == Live(trace) + LiveDelta(step)
    ensures WithinBounds(trace + [step])
  {
    assert (trace + [step])[..|trace|] == trace;
  }

  /** The counts of a history extended by several steps. */
  lemma {:induction false} CountsAppend(trace: seq<BindingStep>, more: seq<BindingStep>)
    ensures Installed(trace + more) == Installed(trace) + Installed(more)
    ensures Live(trace + more) == Live(trace) + Live(more)
    decreases |more|
  {
    if more != [] {
      var m := more[..|more| - 1];
      var last := more[|more| - 1];
      CountsAppend(trace, m);
      assert trace + more == (trace + m) + [last];
      assert (trace + more)[..|trace + more| - 1] == trace + m;
      assert Installed(trace + more) == Installed(trace + m) + Delta(last);
      assert Live(trace + more) == Live(trace + m) + LiveDelta(last);
    } else {
      assert trace + more == trace;
    }
  }

  /** The number of leading outcomes for which a track was opened. */
  function Opened(outcomes: seq<Option<int>>): (n: nat)
    ensures n <= |outcomes|
    ensures forall k :: 0 <= k < n ==> outcomes[k].Some?
    ensures n < |outcomes| ==> outcomes[n].None?
  {
    if outcomes == [] || outcomes[0].None? then 0 else 1 + Opened(outcomes[1..])
  }

  /** Opened counts the same on a prefix that ends at or after the first failure. */
  lemma {:induction false} OpenedPrefix(outcomes: seq<Option<int>>, k: nat)
    requires k <= |outcomes|
    ensures Opened(outcomes[..k]) == if k <= Opened(outcomes) then k else Opened(outcomes)
  {
    if k > 0 && outcomes[0].Some? {
      assert outcomes[..k][1..] == outcomes[1..][..k - 1];
      OpenedPrefix(outcomes[1..], k - 1);
    }
  }

  /**
   * The notifications of a run of track cycles: one fan-out with Play per
   * track that started, then one with Stop if the run stopped.
   */
  function CycleNotices(obs: seq<Observer>, played: nat, stopped: bool): seq<Notification>
  {
    Repeat(FanOut(obs, Play), played) + (if stopped then FanOut(obs, Stop) else [])
  }

  /** One more cycle adds one fan-out: with Play when a track started, with Stop otherwise. */
  lemma NoticesStep(prefix: seq<Notification>, obs: seq<Observer>, played: nat, started: bool)
    ensures prefix + CycleNotices(obs, played, false) + FanOut(obs, if started then Play else Stop)
            == prefix + CycleNotices(obs, if started then played + 1 else played, !started)
  {
    if started {
      NoticesPlay(prefix, obs, played);
    } else {
      NoticesStop(prefix, obs, played);
    }
  }

  /** A cycle that started a track adds one fan-out with Play. */
  lemma NoticesPlay(prefix: seq<Notification>, obs: seq<Observer>, played: nat)
    ensures prefix + CycleNotices(obs, played, false) + FanOut(obs, Play) == prefix + CycleNotices(obs, played + 1, false)
  {
    RepeatOneMore(FanOut(obs, Play), played);
    assert CycleNotices(obs, played, false) == Repeat(FanOut(obs, Play), played) + [];
    assert CycleNotices(obs, played + 1, false) == Repeat(FanOut(obs, Play), played + 1) + [];
  }

  /** A cycle that started no track adds one fan-out with Stop. */
  lemma NoticesStop(prefix: seq<Notification>, obs: seq<Observer>, played: nat)
    ensures prefix + CycleNotices(obs, played, false) + FanOut(obs, Stop) == prefix + CycleNotices(obs, played, true)
  {
    assert CycleNotices(obs, played, false) == Repeat(FanOut(obs, Play), played) + [];
  }

  /** The pair _player_play builds during the catalog's `play` call, when the source could be built. */
  function Built(outcome: Option<int>): seq<BindingStep>
  {
    if outcome.Some? then [Build(outcome.value)] else []
  }

  /** The teardown of the binding installed before a track cycle, if there was one. */
  function Released(before: Option<Binding>): seq<BindingStep>
  {
    if before.Some? then [Teardown(before.value.mediaid)] else []
  }

  /**
   * What a track cycle does with the binding _player_play prepared: install it
   * when the player is not stopped, otherwise install and at once tear it down.
   */
  function Prepared(outcome: Option<int>, running: bool): seq<BindingStep>
  {
    if outcome.None? then []
    else if running then [Install(outcome.value)]
    else [Install(outcome.value), Teardown(outcome.value)]
  }

  /**
   * The pairs of one track cycle. The next track's pair is built while the
   * previous one is still installed, so both exist until the previous one is
   * torn down; after the cycle exactly the kept binding, if any, is left.
   */
  lemma CycleOverlap(trace: seq<BindingStep>, before: Option<Binding>, outcome: Option<int>, running: bool)
    requires Live(trace) == Installed(trace) == (if before.Some? then 1 else 0)
    ensures Live(trace + Built(outcome)) == (if before.Some? then 1 else 0) + (if outcome.Some? then 1 else 0)
    ensures var after := trace + CycleSteps(before, outcome, running);
            Live(after) == Installed(after) == (if running && outcome.Some? then 1 else 0)
  {
    CountsAppend(trace, Built(outcome));
    CountsAppend(trace, CycleSteps(before, outcome, running));
    CountsAppend(Built(outcome) + Released(before), Prepared(outcome, running));
    CountsAppend(Built(outcome), Released(before));
    if outcome.Some? {
      assert Built(outcome)[..0] == [];
      if !running {
        assert Prepared(outcome, running)[..1] == [Install(outcome.value)];
        assert [Install(outcome.value)][..0] == [];
      } else {
        assert Prepared(outcome, running)[..0] == [];
      }
    }
    if before.Some? {
      assert Released(before)[..0] == [];
    }
  }

  /**
   * The binding history of one track cycle: the new pair is built, the
   * previous binding torn down, and the new pair kept or freed.
   */
  function CycleSteps(before: Option<Binding>, outcome: Option<int>, running: bool): seq<BindingStep>
  {
    Built(outcome) + Released(before) + Prepared(outcome, running)
  }

  /** The catalog calls of one track cycle: `play`, then `next` or `end` when a track started. */
  function CycleCalls(m: Media, started: bool): seq<CatalogCall>
  {
    [PlayCall(m)] + CatalogAfterPlay(m, started)
  }

  /** The binding left after a run of cycles started while not stopped: the last track's, if it opened. */
  function After(before: Option<Binding>, outcomes: seq<Option<int>>): Option<Binding>
  {
    if outcomes == [] then before
    else if outcomes[|outcomes| - 1].Some? then Some(Binding(outcomes[|outcomes| - 1].value))
    else None
  }

  /** The binding history of a run of cycles started while not stopped, one cycle per outcome. */
  function PlayedBindings(before: Option<Binding>, outcomes: seq<Option<int>>): seq<BindingStep>
  {
    if outcomes == [] then []
    else
      var k := |outcomes| - 1;
      PlayedBindings(before, outcomes[..k]) + CycleSteps(After(before, outcomes[..k]), outcomes[k], true)
  }

  /** The catalog calls of a run of cycles started while not stopped, one cycle per outcome. */
  function PlayedCalls(m: Media, outcomes: seq<Option<int>>): seq<CatalogCall>
  {
    if outcomes == [] then []
    else
      var k := |outcomes| - 1;
      PlayedCalls(m, outcomes[..k]) + CycleCalls(m, outcomes[k].Some?)
  }

  /** One more cycle extends the binding history, the catalog calls and the binding left behind. */
  lemma PlayedStep(before: Option<Binding>, m: Media, outcomes: seq<Option<int>>, k: nat)
    requires k < |outcomes|
    ensures PlayedBindings(before, outcomes[..k + 1])
            == PlayedBindings(before, outcomes[..k]) + CycleSteps(After(before, outcomes[..k]), outcomes[k], true)
    ensures PlayedCalls(m, outcomes[..k + 1]) == PlayedCalls(m, outcomes[..k]) + CycleCalls(m, outcomes[k].Some?)
    ensures After(before, outcomes[..k + 1]) == if outcomes[k].Some? then Some(Binding(outcomes[k].value)) else None
  {
    assert outcomes[..k + 1][..k] == outcomes[..k];
  }

  /**
   * The binding, binding history and catalog calls after a run of cycles
   * started while not stopped from `before`, `history` and `log`.
   */
  ghost predicate Tracked(cur: Option<Binding>, trace: seq<BindingStep>, calls: seq<CatalogCall>,
                          before: Option<Binding>, history: seq<BindingStep>, log: seq<CatalogCall>,
                          m: Media, outcomes: seq<Option<int>>)
  {
    cur == After(before, outcomes) &&
    trace == history + PlayedBindings(before, outcomes) &&
    calls == log + PlayedCalls(m, outcomes)
  }

  /** A run of no cycles leaves everything as it was. */
  lemma TrackedStart(cur: Option<Binding>, trace: seq<BindingStep>, calls: seq<CatalogCall>, m: Media, outcomes: seq<Option<int>>)
    ensures Tracked(cur, trace, calls, cur, trace, calls, m, outcomes[..0])
  {
    assert outcomes[..0] == [];
    assert trace + [] == trace;
    assert calls + [] == calls;
  }

  /** One more running cycle keeps the run tracked. */
  lemma TrackedStep(cur: Option<Binding>, trace: seq<BindingStep>, calls: seq<CatalogCall>,
                    before: Option<Binding>, history: seq<BindingStep>, log: seq<CatalogCall>,
                    m: Media, outcomes: seq<Option<int>>, k: nat)
    requires k < |outcomes|
    requires Tracked(cur, trace, calls, before, history, log, m, outcomes[..k])
    ensures Tracked(if outcomes[k].Some? then Some(Binding(outcomes[k].value)) else None,
                    trace + CycleSteps(cur, outcomes[k], true), calls + CycleCalls(m, outcomes[k].Some?),
                    before, history, log, m, outcomes[..k + 1])
  {
    PlayedStep(before, m, outcomes, k);
    AppendAssoc(history, PlayedBindings(before, outcomes[..k]), CycleSteps(cur, outcomes[k], true));
    AppendAssoc(log, PlayedCalls(m, outcomes[..k]), CycleCalls(m, outcomes[k].Some?));
  }

  lemma AppendAssoc<T>(a: seq<T>, b: seq<T>, c: seq<T>)
    ensures a + b + c == a + (b + c)
  {
  }

  /** The tracks installed along a history, in order. */
  function InstalledIds(trace: seq<BindingStep>): seq<int>
  {
    if trace == [] then []
    else InstalledIds(trace[..|trace| - 1]) + (if trace[|trace| - 1].Install? then [trace[|trace| - 1].mediaid] else [])
  }

  /** The tracks the catalog's outcomes opened, in order. */
  function OpenedIds(outcomes: seq<Option<int>>): seq<int>
  {
    if outcomes == [] then []
    else OpenedIds(outcomes[..|outcomes| - 1]) + (if outcomes[|outcomes| - 1].Some? then [outcomes[|outcomes| - 1].value] else [])
  }

  lemma {:induction false} InstalledIdsAppend(a: seq<BindingStep>, b: seq<BindingStep>)
    ensures InstalledIds(a + b) == InstalledIds(a) + InstalledIds(b)
    decreases |b|
  {
    if b != [] {
      var k := |b| - 1;
      InstalledIdsAppend(a, b[..k]);
      assert a + b == (a + b[..k]) + [b[k]];
      assert (a + b)[..|a + b| - 1] == a + b[..k];
    } else {
      assert a + b == a;
    }
  }

  /** The tracks of a single step list. */
  lemma CycleInstalls(outcome: Option<int>, before: Option<Binding>)
    ensures InstalledIds(CycleSteps(before, outcome, true))
            == (if outcome.Some? then [outcome.value] else [])
  {
    InstalledIdsAppend(Built(outcome) + Released(before), Prepared(outcome, true));
    InstalledIdsAppend(Built(outcome), Released(before));
    if outcome.Some? {
      InstalledIdsSingle(Build(outcome.value));
      InstalledIdsSingle(Install(outcome.value));
    }
    if before.Some? {
      InstalledIdsSingle(Teardown(before.value.mediaid));
    }
  }

  lemma InstalledIdsSingle(step: BindingStep)
    ensures InstalledIds([step]) == if step.Install? then [step.mediaid] else []
  {
    assert [step][..0] == [];
  }

  /** Every track opened in a run of cycles started while not stopped is installed, in order, and no other. */
  lemma {:induction false} PlayedInstalls(before: Option<Binding>, outcomes: seq<Option<int>>)
    ensures InstalledIds(PlayedBindings(before, outcomes)) == OpenedIds(outcomes)
  {
    if outcomes != [] {
      var k := |outcomes| - 1;
      PlayedInstalls(before, outcomes[..k]);
      var cycle := CycleSteps(After(before, outcomes[..k]), outcomes[k], true);
      assert PlayedBindings(before, outcomes) == PlayedBindings(before, outcomes[..k]) + cycle;
      InstalledIdsAppend(PlayedBindings(before, outcomes[..k]), cycle);
      CycleInstalls(outcomes[k], After(before, outcomes[..k]));
    }
  }

  /** The catalog call after a track started: `next` when the catalog has it, else `end`; nothing when no track started. */
  function CatalogAfterPlay(m: Media, started: bool): seq<CatalogCall>
  {
    if !started then [] else if m.hasNext then [NextCall(m)] else [EndCall(m)]
  }

  /** The destroy call of a swap at the top of the outer loop: the old catalog, when the player was stopped and had one. */
  function Swapped(s: State, m: Option<Media>): seq<CatalogCall>
  {
    if s == Stop && m.Some? then [DestroyCall(m.value)] else []
  }

  /** The `next` call before the track loop, when the catalog provides it. */
  function Advanced(m: Media): seq<CatalogCall>
  {
    if m.hasNext then [NextCall(m)] else []
  }

  /** The `end` call after the track loop, when the loop stopped. */
  function Finished(m: Media, stopped: bool): seq<CatalogCall>
  {
    if stopped then [EndCall(m)] else []
  }

  // ---------------------------------------------------------------------------

  /** player_ctx_t. */
  class PlayerCtx {
    var filtername: string
    var state: State
    var media: Option<Media>
    var nextmedia: Option<Media>
    var events: seq<Observer>
    var current: Option<Binding>
    /** Every callback invocation so far, in order. */
    ghost var fired: seq<Notification>
    /** Every catalog operation invoked so far, in order. */
    ghost var calls: seq<CatalogCall>
    /** Every build, install and teardown of a decoder/source pair so far, in order. */
    ghost var bindings: seq<BindingStep>

    /**
     * The invariant of the context while `pending` freshly built pairs are
     * not installed yet: only the installed binding exists besides them.
     */
    ghost predicate Steady(pending: nat)
      reads this
    {
      state != Unknown &&
      Descending(events) &&
      WithinBounds(bindings) &&
      Installed(bindings) == (if current.Some? then 1 else 0) &&
      Live(bindings) == Installed(bindings) + pending
    }

    ghost predicate Valid()
      reads this
    {
      Steady(0)
    }

    /** player_init: a stopped player with no catalog, no observer and no binding. */
    constructor (filtername: string)
      ensures Valid()
      ensures this.filtername == filtername && state == Stop
      ensures media == None && nextmedia == None && events == [] && current == None
      ensures fired == [] && calls == [] && bindings == []
    {
      this.filtername := filtername;
      state := Stop;
      media, nextmedia := None, None;
      events := [];
      current := None;
      fired, calls, bindings := [], [], [];
    }

    /**
     * player_change. `built` is what media_build returned for the requested path.
     * A new catalog becomes the pending one and the player is stopped, without
     * notifying anyone; it also becomes the active one when there is none yet.
     */
    method ChangeMedia(built: Option<Media>) returns (r: int)
      requires Valid()
      modifies this`nextmedia, this`state, this`media
      ensures Valid() && r == 0
      ensures built.None? ==> state == old(state) && media == old(media) && nextmedia == old(nextmedia)
      ensures built.Some? ==> nextmedia == built && state == Stop
      ensures built.Some? ==> media == (if old(media).None? then built else old(media))
    {
      if built.Some? {
        nextmedia := built;
        state := Stop;
        if media.None? {
          media := built;
        }
      }
      r := 0;
    }

    /**
     * player_next: advance the active catalog and ask for a change, when there
     * is a catalog. Unlike player_run, it calls the catalog's next without
     * checking that it exists, so an active catalog must have one.
     */
    method Next()
      requires Valid()
      requires media.Some? ==> media.value.hasNext
      modifies this`state, this`calls, this`fired
      ensures Valid()
      ensures old(media).None? ==> state == old(state) && calls == old(calls)
      ensures old(media).Some? ==> state == Change && calls == old(calls) + [NextCall(old(media).value)]
      ensures fired == old(fired)
    {
      if media.Some? {
        calls := calls + [NextCall(media.value)];
        var _ := RequestState(Change);
      }
    }

    /** player_removeevent: unlink the first observer with `id`; the head is read unconditionally. */
    method RemoveEvent(id: int)
      requires Valid()
      requires events != []
      modifies this`events
      ensures Valid()
      ensures events == Unlink(old(events), id)
      ensures forall i :: 0 <= i < |events| ==> events[i].id != id
    {
      UnlinkKeepsDescending(events, id);
      if events[0].id == id {
        events := events[1..];
        return;
      }
      var k := 0;
      while k < |events|
        invariant 0 <= k <= |events|
        invariant events == old(events)
        invariant forall i :: 0 <= i <= k && i < |events| ==> events[i].id != id
      {
        if k + 1 < |events| && events[k + 1].id == id {
          events := events[..k + 1] + events[k + 2..];
          return;
        }
        k := k + 1;
      }
    }

    /** player_onchange: prepend a new observer and return its id. */
    method OnChange(cb: nat, cbctx: nat) returns (id: int)
      requires Valid()
      modifies this`events
      ensures Valid()
      ensures id == NextId(old(events)) && events == [Observer(id, cb, cbctx)] + old(events)
      ensures forall i :: 0 <= i < |old(events)| ==> old(events)[i].id < id
    {
      RegisterKeepsDescending(events, cb, cbctx);
      if events != [] {
        id := events[0].id + 1;
      } else {
        id := 0;
      }
      events := [Observer(id, cb, cbctx)] + events;
    }

    /** Run every observer's callback with the current state, head to tail. */
    method FireAll()
      modifies this`fired
      ensures fired == old(fired) + FanOut(events, state)
    {
      var i := 0;
      while i < |events|
        invariant 0 <= i <= |events|
        invariant fired == old(fired) + FanOut(events[..i], state)
      {
        assert FanOut(events[..i + 1], state) == FanOut(events[..i], state) + [Notification(events[i].id, state)];
        fired := fired + [Notification(events[i].id, state)];
        i := i + 1;
      }
      assert events[..i] == events;
    }

    /**
     * player_state: a query or a request for the current state changes nothing;
     * any other request sets the state, and a change to Pause notifies every
     * observer. Returns the resulting state.
     */
    method RequestState(s: State) returns (r: State)
      requires Valid()
      modifies this`state, this`fired
      ensures Valid()
      ensures state == Transition(old(state), s) && r == state
      ensures fired == old(fired) + (if FiresObservers(old(state), s) then FanOut(events, Pause) else [])
    {
      if s != Unknown && state != s {
        state := s;
        if s == Pause {
          FireAll();
        }
      }
      r := state;
    }

    /** player_mediaid: the id of the installed binding's track, or -1. */
    function MediaId(): (id: int)
      reads this
      ensures current.Some? ==> id == current.value.mediaid
      ensures current.None? ==> id == -1
    {
      if current.Some? then current.value.mediaid else -1
    }

    /**
     * The guard of player_waiton, as seen by one caller at one instant: Some(-1)
     * at once when the state is Stop, Change or Error; Some(0) when the state
     * already differs from `s`; None when the caller would block until another
     * task changes the state.
     */
    function WaitOn(s: State): (r: Option<int>)
      reads this
      ensures r == Some(-1) <==> state in {Stop, Change, Error}
      ensures r.None? <==> state !in {Stop, Change, Error} && state == s
      ensures r == Some(0) <==> state !in {Stop, Change, Error} && state != s
    {
      if state == Stop || state == Change || state == Error then Some(-1)
      else if state == s then None
      else Some(0)
    }

    /**
     * One pass of the stopped loop of player_run (lines 267-285): swap in the
     * pending catalog, destroying the old one, or park until another task acts.
     */
    method StopPhase() returns (parked: bool)
      requires Valid()
      requires state == Stop
      modifies this`media, this`state, this`calls
      ensures Valid()
      ensures parked <==> old(media) == nextmedia
      ensures parked ==> state == Stop && media == old(media) && calls == old(calls)
      ensures !parked ==> state == Change && media == nextmedia
      ensures !parked ==> calls == old(calls) + (if old(media).Some? then [DestroyCall(old(media).value)] else [])
    {
      if media != nextmedia {
        if media.Some? {
          calls := calls + [DestroyCall(media.value)];
        }
        media := nextmedia;
        state := Change;
        parked := false;
      } else {
        parked := true;
      }
    }

    /** Tear down the installed binding, if any (lines 296-303 and 320-323). */
    method ReleaseCurrent(ghost pending: nat)
      requires Steady(pending)
      modifies this`current, this`bindings
      ensures Steady(pending)
      ensures current == None
      ensures bindings == old(bindings) + Released(old(current))
    {
      if current.Some? {
        ExtendHistory(bindings, Teardown(current.value.mediaid));
        bindings := bindings + [Teardown(current.value.mediaid)];
        current := None;
      }
    }

    /**
     * The start of a track cycle (lines 294-303): the catalog plays its track,
     * _player_play builds the pair for it, and the previous binding is freed.
     */
    method OpenCycle(outcome: Option<int>)
      requires Valid()
      requires media.Some?
      modifies this`current, this`bindings, this`calls
      ensures Steady(if outcome.Some? then 1 else 0)
      ensures current == None
      ensures bindings == old(bindings) + (Built(outcome) + Released(old(current)))
      ensures calls == old(calls) + [PlayCall(media.value)]
    {
      AppendAssoc(bindings, Built(outcome), Released(current));
      calls := calls + [PlayCall(media.value)];
      var code := BuildPair(outcome);
      ReleaseCurrent(if outcome.Some? then 1 else 0);
    }

    /**
     * _player_play (lines 228-252), the callback the catalog invokes for its
     * track: decoder_build and src_build are foreign, so `outcome` is the track
     * id when the source could be built and None when it could not. The pair
     * is logged as built exactly when the callback answers 0.
     */
    method BuildPair(outcome: Option<int>) returns (r: int)
      requires Valid()
      modifies this`bindings
      ensures Steady(if outcome.Some? then 1 else 0)
      ensures bindings == old(bindings) + Built(outcome)
      ensures r == 0 <==> outcome.Some?
      ensures r == -1 <==> outcome.None?
      ensures r == 0 <==> Live(bindings) == Live(old(bindings)) + 1
    {
      if outcome.Some? {
        ExtendHistory(bindings, Build(outcome.value));
        bindings := bindings + [Build(outcome.value)];
        r := 0;
      } else {
        r := -1;
      }
    }

    /** Make a freshly prepared binding the current one (lines 306 and 319). */
    method InstallBinding(id: int)
      requires Steady(1)
      requires current == None
      modifies this`current, this`bindings
      ensures Valid()
      ensures current == Some(Binding(id))
      ensures bindings == old(bindings) + [Install(id)]
    {
      ExtendHistory(bindings, Install(id));
      bindings := bindings + [Install(id)];
      current := Some(Binding(id));
    }

    /** Lines 306-314: install the new binding, mark the player playing and advance or end the catalog. */
    method StartTrack(id: int)
      requires Steady(1)
      requires current == None && media.Some?
      modifies this`current, this`bindings, this`state, this`calls
      ensures Valid()
      ensures state == Play && current == Some(Binding(id))
      ensures bindings == old(bindings) + [Install(id)]
      ensures calls == old(calls) + CatalogAfterPlay(media.value, true)
    {
      InstallBinding(id);
      state := Play;
      if media.value.hasNext {
        calls := calls + [NextCall(media.value)];
      } else {
        calls := calls + [EndCall(media.value)];
      }
    }

    /** Lines 317-325: free the binding that was prepared, if any, and stop. */
    method HaltTrack(outcome: Option<int>)
      requires Steady(if outcome.Some? then 1 else 0)
      requires current == None
      modifies this`current, this`bindings, this`state, this`fired
      ensures Valid()
      ensures state == Stop && current == None
      ensures bindings == old(bindings) + Prepared(outcome, false)
      ensures fired == old(fired)
    {
      if outcome.Some? {
        InstallBinding(outcome.value);
        ReleaseCurrent(0);
      }
      var _ := RequestState(Stop);
    }

    /**
     * One iteration of the track loop of player_run (lines 294-332). `outcome` is
     * the binding _player_play produced while the catalog played its current
     * track: Some(id) when the catalog had a track and its source was built,
     * None otherwise. The new pair is built while the previous binding is still
     * installed; the previous one is torn down before the new one is installed,
     * and the new one is kept only when the player was not stopped meanwhile.
     * Every observer is then notified of the resulting state.
     */
    method TrackCycle(outcome: Option<int>)
      requires Valid()
      requires media.Some?
      modifies this`current, this`bindings, this`state, this`calls, this`fired
      ensures Valid()
      ensures old(state) != Stop && outcome.Some? ==> state == Play && current == Some(Binding(outcome.value))
      ensures !(old(state) != Stop && outcome.Some?) ==> state == Stop && current == None
      ensures calls == old(calls) + CycleCalls(media.value, old(state) != Stop && outcome.Some?)
      ensures bindings == old(bindings) + CycleSteps(old(current), outcome, old(state) != Stop)
      ensures fired == old(fired) + FanOut(events, state)
    {
      SwitchTrack(outcome);
      FireAll();
    }

    /** The track cycle up to the notification: play, teardown, then install and start, or halt. */
    method SwitchTrack(outcome: Option<int>)
      requires Valid()
      requires media.Some?
      modifies this`current, this`bindings, this`state, this`calls, this`fired
      ensures Valid()
      ensures old(state) != Stop && outcome.Some? ==> state == Play && current == Some(Binding(outcome.value))
      ensures !(old(state) != Stop && outcome.Some?) ==> state == Stop && current == None
      ensures calls == old(calls) + CycleCalls(media.value, old(state) != Stop && outcome.Some?)
      ensures bindings == old(bindings) + CycleSteps(old(current), outcome, old(state) != Stop)
      ensures fired == old(fired)
    {
      ghost var running := state != Stop;
      AppendAssoc(bindings, Built(outcome) + Released(current), Prepared(outcome, running));
      AppendAssoc(calls, [PlayCall(media.value)], CatalogAfterPlay(media.value, running && outcome.Some?));
      assert [PlayCall(media.value)] + [] == [PlayCall(media.value)];
      OpenCycle(outcome);
      if state != Stop && outcome.Some? {
        StartTrack(outcome.value);
      } else {
        HaltTrack(outcome);
      }
    }

    /**
     * The do-while track loop of player_run (lines 292-333), fed with one
     * outcome per cycle. It runs until a cycle ends stopped or the outcomes run
     * out, and returns how many cycles ran. Started while stopped, one cycle
     * runs and frees whatever the catalog prepared.
     */
    method PlayTracks(outcomes: seq<Option<int>>) returns (cycles: nat)
      requires Valid()
      requires media.Some?
      requires |outcomes| > 0
      modifies this`current, this`bindings, this`state, this`calls, this`fired
      ensures Valid()
      ensures 1 <= cycles <= |outcomes|
      ensures state == Stop || cycles == |outcomes|
      ensures state == Stop ==> current == None
      ensures state != Stop ==> state == Play && current.Some? && outcomes[cycles - 1] == Some(current.value.mediaid)
      ensures old(state) == Stop ==> cycles == 1 && state == Stop
      ensures old(state) == Stop ==>
                bindings == old(bindings) + CycleSteps(old(current), outcomes[0], false) &&
                calls == old(calls) + [PlayCall(media.value)] &&
                fired == old(fired) + FanOut(events, Stop)
      ensures old(state) != Stop ==> (state == Stop <==> Opened(outcomes) < |outcomes|)
      ensures old(state) != Stop ==> cycles == (if Opened(outcomes) < |outcomes| then Opened(outcomes) + 1 else |outcomes|)
      ensures old(state) != Stop ==> fired == old(fired) + CycleNotices(events, Opened(outcomes[..cycles]), state == Stop)
      ensures old(state) != Stop ==> bindings == old(bindings) + PlayedBindings(old(current), outcomes[..cycles])
      ensures old(state) != Stop ==> calls == old(calls) + PlayedCalls(media.value, outcomes[..cycles])
    {
      if state == Stop {
        TrackCycle(outcomes[0]);
        cycles := 1;
      } else {
        cycles := PlayWhileRunning(outcomes);
      }
    }

    /**
     * A track cycle that starts while the player is not stopped, as the
     * `k`-th cycle of a run that began from `before`, `history`, `log` and
     * the notifications `start`, after `played` tracks started.
     */
    method RunningCycle(outcomes: seq<Option<int>>, k: nat, ghost played: nat, ghost start: seq<Notification>,
                        ghost before: Option<Binding>, ghost history: seq<BindingStep>, ghost log: seq<CatalogCall>)
      requires Valid()
      requires media.Some? && state != Stop
      requires k < |outcomes|
      requires Tracked(current, bindings, calls, before, history, log, media.value, outcomes[..k])
      requires fired == start + CycleNotices(events, played, false)
      modifies this`current, this`bindings, this`state, this`calls, this`fired
      ensures Valid()
      ensures Tracked(current, bindings, calls, before, history, log, media.value, outcomes[..k + 1])
      ensures outcomes[k].Some? ==> state == Play && current == Some(Binding(outcomes[k].value))
      ensures outcomes[k].None? ==> state == Stop && current == None
      ensures fired == start + CycleNotices(events, if outcomes[k].Some? then played + 1 else played, outcomes[k].None?)
    {
      TrackedStep(current, bindings, calls, before, history, log, media.value, outcomes, k);
      TrackCycle(outcomes[k]);
      NoticesStep(start, events, played, outcomes[k].Some?);
    }

    /** The state of the track loop after `cycles` cycles, `played` of them with a track started. */
    ghost predicate Looping(outcomes: seq<Option<int>>, cycles: nat, played: nat, start: seq<Notification>,
                            before: Option<Binding>, history: seq<BindingStep>, log: seq<CatalogCall>)
      reads this
    {
      Valid() && media.Some? &&
      cycles <= |outcomes| && cycles <= Opened(outcomes) + 1 &&
      played == (if cycles <= Opened(outcomes) then cycles else Opened(outcomes)) &&
      (cycles <= Opened(outcomes) ==> state != Stop) &&
      (cycles > Opened(outcomes) ==> state == Stop && current == None) &&
      (0 < cycles <= Opened(outcomes) ==> state == Play && current.Some? && outcomes[cycles - 1] == Some(current.value.mediaid)) &&
      fired == start + CycleNotices(events, played, cycles > Opened(outcomes)) &&
      Tracked(current, bindings, calls, before, history, log, media.value, outcomes[..cycles])
    }

    /** One pass of the track loop's body. */
    method LoopStep(outcomes: seq<Option<int>>, cycles: nat, ghost played: nat, ghost start: seq<Notification>,
                    ghost before: Option<Binding>, ghost history: seq<BindingStep>, ghost log: seq<CatalogCall>)
      returns (ghost next: nat)
      requires Looping(outcomes, cycles, played, start, before, history, log)
      requires cycles < |outcomes| && state != Stop
      modifies this`current, this`bindings, this`state, this`calls, this`fired
      ensures Looping(outcomes, cycles + 1, next, start, before, history, log)
    {
      assert outcomes[cycles].Some? <==> cycles < Opened(outcomes);
      RunningCycle(outcomes, cycles, played, start, before, history, log);
      next := if cycles < Opened(outcomes) then played + 1 else played;
      ghost var run := outcomes[..cycles + 1];
      assert Tracked(current, bindings, calls, before, history, log, media.value, run);
    }

    /**
     * The track loop started while not stopped: every opened track plays in
     * turn, and the first outcome without a track stops the player.
     */
    method PlayWhileRunning(outcomes: seq<Option<int>>) returns (cycles: nat)
      requires Valid()
      requires media.Some? && state != Stop
      requires |outcomes| > 0
      modifies this`current, this`bindings, this`state, this`calls, this`fired
      ensures Valid()
      ensures 1 <= cycles <= |outcomes|
      ensures state == Stop <==> Opened(outcomes) < |outcomes|
      ensures cycles == if Opened(outcomes) < |outcomes| then Opened(outcomes) + 1 else |outcomes|
      ensures state == Stop ==> current == None
      ensures state != Stop ==> state == Play && current.Some? && outcomes[cycles - 1] == Some(current.value.mediaid)
      ensures fired == old(fired) + CycleNotices(events, Opened(outcomes[..cycles]), state == Stop)
      ensures Tracked(current, bindings, calls, old(current), old(bindings), old(calls), media.value, outcomes[..cycles])
    {
      ghost var start := fired;
      ghost var played: nat := 0;
      ghost var before := current;
      ghost var history := bindings;
      ghost var log := calls;
      cycles := 0;
      TrackedStart(current, bindings, calls, media.value, outcomes);
      while cycles == 0 || (state != Stop && cycles < |outcomes|)
        invariant Looping(outcomes, cycles, played, start, before, history, log)
        decreases |outcomes| - cycles
      {
        played := LoopStep(outcomes, cycles, played, start, before, history, log);
        cycles := cycles + 1;
      }
      OpenedPrefix(outcomes, cycles);
    }

    /**
     * What a pass through the track loop leaves, measured from the logs and
     * binding it started with: the cycles run, the final state and binding,
     * the notices, the binding log and the catalog calls of exactly those
     * cycles, bracketed by the catalog's next and end.
     */
    ghost predicate CatalogPlayed(outcomes: seq<Option<int>>, o: Pass, fired0: seq<Notification>,
                                  bindings0: seq<BindingStep>, current0: Option<Binding>, calls0: seq<CatalogCall>)
      reads this
    {
      |outcomes| > 0 && media.Some? && (o.Ended? || o.Playing?) &&
      (o.Ended? <==> Opened(outcomes) < |outcomes|) &&
      o.cycles == (if Opened(outcomes) < |outcomes| then Opened(outcomes) + 1 else |outcomes|) &&
      (o.Ended? ==> state == Stop && current == None) &&
      (o.Playing? ==> state == Play && current.Some? && outcomes[|outcomes| - 1] == Some(current.value.mediaid)) &&
      fired == fired0 + CycleNotices(events, Opened(outcomes[..o.cycles]), o.Ended?) &&
      bindings == bindings0 + PlayedBindings(current0, outcomes[..o.cycles]) &&
      calls == calls0 + Advanced(media.value) + PlayedCalls(media.value, outcomes[..o.cycles]) + Finished(media.value, o.Ended?)
    }

    /**
     * Lines 289-334, once a catalog is active and the player is not stopped:
     * advance the catalog when it has `next`, run the track loop, and end the
     * catalog's traversal when the loop stopped.
     */
    method PlayCatalog(outcomes: seq<Option<int>>) returns (o: Pass)
      requires Valid()
      requires media.Some? && state != Stop
      requires |outcomes| > 0
      modifies this`current, this`bindings, this`state, this`calls, this`fired
      ensures Valid()
      ensures CatalogPlayed(outcomes, o, old(fired), old(bindings), old(current), old(calls))
    {
      calls := calls + Advanced(media.value);
      var cycles := PlayTracks(outcomes);
      calls := calls + Finished(media.value, state == Stop);
      o := if state != Stop then Playing(cycles) else Ended(cycles);
    }

    /**
     * The top of the outer loop of player_run (lines 264-288): leave in
     * error, swap the catalog or park while stopped, leave without a catalog.
     * None means the track loop is to run.
     */
    method EnterPass() returns (exit: Option<Pass>)
      requires Valid()
      modifies this`media, this`state, this`calls
      ensures Valid()
      ensures exit.None? <==>
                old(state) != Error && !(old(state) == Stop && old(media) == nextmedia) &&
                (if old(state) == Stop then nextmedia else old(media)).Some?
      ensures exit.None? ==> media.Some? && state != Stop
      ensures exit.Some? ==> exit.value == Parked || exit.value == Exited
      ensures old(state) == Error ==> exit == Some(Exited) && state == Error
      ensures old(state) == Stop && old(media) == nextmedia ==> exit == Some(Parked) && state == Stop && media == old(media)
      ensures exit == Some(Exited) && old(state) != Error ==> media == None
      ensures old(state) == Stop && old(media) != nextmedia ==> media == nextmedia
      ensures exit == Some(Parked) ==> calls == old(calls)
      ensures exit != Some(Parked) ==> calls == old(calls) + Swapped(old(state), old(media))
    {
      if state == Error {
        return Some(Exited);
      }
      if state == Stop {
        var parked := StopPhase();
        if parked {
          return Some(Parked);
        }
      }
      if media.None? {
        return Some(Exited);
      }
      exit := None;
    }

    /**
     * One pass of the outer loop of player_run (lines 264-335): nothing when the
     * player is in error; otherwise swap the catalog if stopped, park if there is
     * nothing to swap, leave the loop when there is no catalog, else advance the
     * catalog, run the track loop and end the catalog's traversal.
     */
    method RunPass(outcomes: seq<Option<int>>) returns (o: Pass)
      requires Valid()
      requires |outcomes| > 0
      modifies this`media, this`current, this`bindings, this`state, this`calls, this`fired
      ensures Valid()
      ensures old(state) == Error ==> o == Exited && state == Error
      ensures old(state) == Stop && old(media) == nextmedia ==> o == Parked && state == Stop && media == old(media)
      ensures o == Exited && old(state) != Error ==> media == None
      ensures (o.Ended? || o.Playing?) <==>
                old(state) != Error && !(old(state) == Stop && old(media) == nextmedia) &&
                (if old(state) == Stop then nextmedia else old(media)).Some?
      ensures old(state) == Stop && old(media) != nextmedia ==> media == nextmedia
      ensures o.Parked? ==> calls == old(calls)
      ensures o.Exited? ==> calls == old(calls) + Swapped(old(state), old(media))
      ensures !(o.Ended? || o.Playing?) ==> fired == old(fired) && bindings == old(bindings) && current == old(current)
      ensures o.Ended? || o.Playing? ==>
                CatalogPlayed(outcomes, o, old(fired), old(bindings), old(current), old(calls) + Swapped(old(state), old(media)))
    {
      var exit := EnterPass();
      if exit.Some? {
        o := exit.value;
      } else {
        o := PlayCatalog(outcomes);
      }
    }
  }

}
