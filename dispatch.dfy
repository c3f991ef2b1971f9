/**
 * Ordered trial-and-fallback dispatch (app.py `_openrouter_chat_sync`).
 *
 * The HTTP request to each model is abstract: position `i` of the priority
 * list comes with a `Probe` holding the clock reading at its availability
 * check, the reply the model would give if posted to, and the clock reading
 * at which a failure would be recorded.
 */
module Dispatcher {
  import opened Wrappers
  import opened Text
  import opened Cooldown

  /** What one chat-completion request produced. `Ok200` carries the
      `choices[0].message.content` field (None when it is absent or null);
      `Status` is any other status code, and `Status(200)` is read as a 200
      reply without content; `ConnError` is any exception raised while
      posting or decoding (connection error, timeout, malformed JSON). */
  datatype Reply = Ok200(content: Option<string>) | Status(code: int) | ConnError

  datatype Probe = Probe(checkedAt: nat, reply: Reply, failedAt: nat)

  /** How the loop treats a reply: return it, record a failure and move on,
      or abort the whole run. */
  datatype Verdict = Accept(text: string) | Retry | Abort

  /** How a dispatch run ends: the reply text, or one of the three
      RuntimeErrors the source raises. */
  datatype Outcome = Success(text: string) | MissingKey | AuthFailure | Exhausted(tried: nat)

  /** The codes the source names as "skip this model" (404, 410, 429, 5xx). */
  const SKIP_CODES: set<int> := {404, 410, 429, 500, 502, 503, 504}
  /** The codes that raise the authentication error. */
  const AUTH_CODES: set<int> := {401, 403}

  /** A 200 reply with non-blank content is accepted as it is (unstripped); a
      401 or 403 aborts; everything else, the skip codes, unknown codes, a 200
      reply with blank or missing content and a raised exception alike, is a
      recorded failure. */
  function Classify(reply: Reply): (v: Verdict)
    ensures v.Accept? <==> reply.Ok200? && reply.content.Some? && !IsBlank(reply.content.value)
    ensures v.Accept? ==> v.text == reply.content.value
    ensures v.Abort? <==> reply.Status? && reply.code in AUTH_CODES
  {
    match reply
    case Ok200(content) =>
      if content.Some? && !IsBlank(content.value) then Accept(content.value) else Retry
    case Status(code) =>
      if code in AUTH_CODES then Abort else Retry
    case ConnError => Retry
  }

  /** What one iteration of the loop does with one model: carry on with the
      next model (with the tracker state and attempt count it leaves), or
      stop the run with an outcome. */
  datatype Step = Continue(states: States, tried: nat) | Stop(outcome: Outcome, states: States)

  /** One iteration: a cooling model is skipped untouched; otherwise the check
      (which may reset the entry) is followed by the post, whose reply is
      returned, aborts the run, or is recorded as a failure. */
  function StepAt(states: States, model: string, probe: Probe, tried: nat): Step {
    if !IsAvailable(states, model, probe.checkedAt) then Continue(states, tried)
    else
      var checked := AfterCheck(states, model, probe.checkedAt);
      match Classify(probe.reply)
      case Accept(text) => Stop(Success(text), AfterSuccess(checked, model))
      case Abort => Stop(AuthFailure, checked)
      case Retry => Continue(AfterFailure(checked, model, probe.failedAt), tried + 1)
  }

  /** The dispatch loop from position `i` on, with `tried` models posted to so
      far: the outcome and the tracker state it leaves. */
  function RunFrom(priority: seq<string>, probes: seq<Probe>, i: nat, states: States, tried: nat): (Outcome, States)
    requires |probes| == |priority| && i <= |priority|
    decreases |priority| - i
  {
    if i == |priority| then (Exhausted(tried), states)
    else
      match StepAt(states, priority[i], probes[i], tried)
      case Stop(outcome, after) => (outcome, after)
      case Continue(next, tried') => RunFrom(priority, probes, i + 1, next, tried')
  }

  /** A whole run: a missing API key fails before any model is looked at. */
  function Dispatch(hasKey: bool, priority: seq<string>, probes: seq<Probe>, states: States): (Outcome, States)
    requires |probes| == |priority|
  {
    if !hasKey then (MissingKey, states) else RunFrom(priority, probes, 0, states, 0)
  }

  /** `_openrouter_chat_sync`: the loop over `MODEL_PRIORITY` against the
      shared tracker. */
  method Chat(tracker: Tracker, hasKey: bool, priority: seq<string>, probes: seq<Probe>) returns (out: Outcome)
    requires |probes| == |priority|
    modifies tracker
    ensures (out, tracker.states) == Dispatch(hasKey, priority, probes, old(tracker.states))
  {
    if !hasKey {
      return MissingKey;
    }
    var tried := 0;
    for i := 0 to |priority|
      invariant RunFrom(priority, probes, i, tracker.states, tried) == RunFrom(priority, probes, 0, old(tracker.states), 0)
    {
      var model := priority[i];
      var available := tracker.CheckAvailable(model, probes[i].checkedAt);
      if !available {
        continue;
      }
      tried := tried + 1;
      match probes[i].reply {
        case Ok200(content) =>
          if content.Some? && !IsBlank(content.value) {
            tracker.RecordSuccess(model);
            return Success(content.value);
          }
          // a 200 without usable content falls through to "other codes"
          tracker.MarkFailed(model, probes[i].failedAt);
        case Status(code) =>
          if code in SKIP_CODES {
            tracker.MarkFailed(model, probes[i].failedAt);
            continue;
          }
          if code in AUTH_CODES {
            return AuthFailure;
          }
          tracker.MarkFailed(model, probes[i].failedAt);
        case ConnError =>
          tracker.MarkFailed(model, probes[i].failedAt);
      }
    }
    return Exhausted(tried);
  }

  // ---------------------------------------------------------------------
  // What every run guarantees

  /** A run never invents a reply: a success returns the non-blank content of
      some later model's 200 reply, an abort comes from some later model's
      401/403, and an exhausted run reports at most one attempt per model. */
  lemma {:induction false} RunOutcomeSound(priority: seq<string>, probes: seq<Probe>, i: nat, states: States, tried: nat)
    requires |probes| == |priority| && i <= |priority|
    ensures var out := RunFrom(priority, probes, i, states, tried).0;
      && !out.MissingKey?
      && (out.Success? ==> !IsBlank(out.text) && exists j :: i <= j < |priority| && probes[j].reply == Ok200(Some(out.text)))
      && (out.AuthFailure? ==> exists j :: i <= j < |priority| && probes[j].reply.Status? && probes[j].reply.code in AUTH_CODES)
      && (out.Exhausted? ==> tried <= out.tried <= tried + (|priority| - i))
    decreases |priority| - i
  {
    if i < |priority| {
      var model := priority[i];
      var probe := probes[i];
      if !IsAvailable(states, model, probe.checkedAt) {
        RunOutcomeSound(priority, probes, i + 1, states, tried);
      } else if Classify(probe.reply).Retry? {
        var next := AfterFailure(AfterCheck(states, model, probe.checkedAt), model, probe.failedAt);
        RunOutcomeSound(priority, probes, i + 1, next, tried + 1);
      }
    }
  }

  /** One iteration, taken alone, keeps the tracker never-cooled. */
  lemma StepKeepsNeverCooled(states: States, model: string, probe: Probe, tried: nat)
    requires NeverCooled(states)
    ensures NeverCooled(StepAt(states, model, probe, tried).states)
  {
    NeverCooledAllAvailable(states, model, probe.checkedAt);
    CheckThenFailureStaysCool(states, model, probe.checkedAt, probe.failedAt);
    var checked := AfterCheck(states, model, probe.checkedAt);
    if Classify(probe.reply).Accept? {
      forall m | m in AfterSuccess(checked, model)
        ensures AfterSuccess(checked, model)[m].skipUntil == 0 && AfterSuccess(checked, model)[m].fails < FAILURE_THRESHOLD
      {
        if m != model {
          WritesOnlyModel(checked, model, probe.checkedAt, m);
        }
      }
    }
  }

  /** A run taken alone keeps the tracker never-cooled: because the check
      before each attempt resets the entry, no model reaches the threshold of
      2, so while runs are taken one at a time, starting from the empty
      tracker, no model is put in cooldown. Two runs interleaved on the same
      model can cool it (`Cooldown.InterleavedFailuresCool`). */
  lemma {:induction false} RunKeepsNeverCooled(priority: seq<string>, probes: seq<Probe>, i: nat, states: States, tried: nat)
    requires |probes| == |priority| && i <= |priority|
    requires NeverCooled(states)
    ensures NeverCooled(RunFrom(priority, probes, i, states, tried).1)
    decreases |priority| - i
  {
    if i < |priority| {
      StepKeepsNeverCooled(states, priority[i], probes[i], tried);
      match StepAt(states, priority[i], probes[i], tried)
      case Stop(_, _) =>
      case Continue(next, tried') =>
        RunKeepsNeverCooled(priority, probes, i + 1, next, tried');
    }
  }

  /** A run from `i` reads only the probes from `i` on. */
  lemma {:induction false} RunReadsOnlyLaterProbes(priority: seq<string>, probes: seq<Probe>, probes': seq<Probe>, i: nat, states: States, tried: nat)
    requires |probes| == |priority| && |probes'| == |priority| && i <= |priority|
    requires forall j :: i <= j < |priority| ==> probes'[j] == probes[j]
    ensures RunFrom(priority, probes', i, states, tried) == RunFrom(priority, probes, i, states, tried)
    decreases |priority| - i
  {
    if i < |priority| {
      var model := priority[i];
      var probe := probes[i];
      RunReadsOnlyLaterProbes(priority, probes, probes', i + 1, states, tried);
      if IsAvailable(states, model, probe.checkedAt) {
        var next := AfterFailure(AfterCheck(states, model, probe.checkedAt), model, probe.failedAt);
        RunReadsOnlyLaterProbes(priority, probes, probes', i + 1, next, tried + 1);
      }
    }
  }

  /** A model in cooldown is never posted to: whatever it would have replied,
      the run comes out the same. */
  lemma CoolingModelNotPosted(priority: seq<string>, probes: seq<Probe>, i: nat, states: States, tried: nat, other: Reply)
    requires |probes| == |priority| && i < |priority|
    requires Cooling(states, priority[i], probes[i].checkedAt)
    ensures RunFrom(priority, probes[i := probes[i].(reply := other)], i, states, tried) == RunFrom(priority, probes, i, states, tried)
  {
    var probes' := probes[i := probes[i].(reply := other)];
    RunReadsOnlyLaterProbes(priority, probes, probes', i + 1, states, tried);
  }

  // ---------------------------------------------------------------------
  // Runs over a priority list without repeated ids

  predicate Distinct(priority: seq<string>) {
    forall j, k :: 0 <= j < k < |priority| ==> priority[j] != priority[k]
  }

  /** The model is skipped, or posted to and its reply is a recorded failure. */
  predicate Transient(states: States, model: string, probe: Probe) {
    Cooling(states, model, probe.checkedAt) || Classify(probe.reply) == Retry
  }

  /** How many of the models at positions `i` to `n - 1` pass the check in `states`. */
  function CountAvailable(priority: seq<string>, probes: seq<Probe>, i: nat, n: nat, states: States): nat
    requires |probes| == |priority| && i <= n <= |priority|
    decreases n - i
  {
    if i == n then 0
    else (if Cooling(states, priority[i], probes[i].checkedAt) then 0 else 1) + CountAvailable(priority, probes, i + 1, n, states)
  }

  predicate NotListed(priority: seq<string>, lo: nat, hi: nat, m: string)
    requires lo <= hi <= |priority|
  {
    forall j :: lo <= j < hi ==> priority[j] != m
  }

  /** Every model at positions `i` to `n - 1` either kept its cooling entry
      or now holds exactly one failure. */
  ghost predicate FailedOnce(priority: seq<string>, probes: seq<Probe>, i: nat, n: nat, before: States, after: States)
    requires |probes| == |priority| && i <= n <= |priority|
  {
    forall j :: i <= j < n ==>
      priority[j] in after &&
      after[priority[j]] == (if Cooling(before, priority[j], probes[j].checkedAt) then before[priority[j]] else ModelState(1, 0))
  }

  /** Every model not at positions `lo` to `hi - 1` has the entry it had. */
  ghost predicate Untouched(priority: seq<string>, lo: nat, hi: nat, before: States, after: States)
    requires lo <= hi <= |priority|
  {
    forall m :: NotListed(priority, lo, hi, m) ==> (m in after <==> m in before) && (m in before ==> after[m] == before[m])
  }

  /** Counting depends only on which models are cooling. */
  lemma {:induction false} CountAvailableFrame(priority: seq<string>, probes: seq<Probe>, i: nat, n: nat, s: States, s': States)
    requires |probes| == |priority| && i <= n <= |priority|
    requires forall j :: i <= j < n ==> (Cooling(s, priority[j], probes[j].checkedAt) <==> Cooling(s', priority[j], probes[j].checkedAt))
    ensures CountAvailable(priority, probes, i, n, s) == CountAvailable(priority, probes, i, n, s')
    decreases n - i
  {
    if i < n {
      CountAvailableFrame(priority, probes, i + 1, n, s, s');
    }
  }

  /** The entry left after the model at a position is skipped or fails. */
  function PassOver(states: States, model: string, probe: Probe): (r: States)
    ensures model in r && r[model] == (if Cooling(states, model, probe.checkedAt) then states[model] else ModelState(1, 0))
  {
    if Cooling(states, model, probe.checkedAt) then states
    else AfterFailure(AfterCheck(states, model, probe.checkedAt), model, probe.failedAt)
  }

  /** Passing over a model writes only its own entry. */
  lemma PassOverFrame(states: States, model: string, probe: Probe, m: string)
    requires m != model
    ensures var r := PassOver(states, model, probe);
      (m in r <==> m in states) && (m in states ==> r[m] == states[m])
  {
    WritesOnlyModel(states, model, probe.checkedAt, m);
    WritesOnlyModel(AfterCheck(states, model, probe.checkedAt), model, probe.failedAt, m);
  }

  /** One skipped or failing position advances the run by one. */
  lemma StepOverTransient(priority: seq<string>, probes: seq<Probe>, i: nat, states: States, tried: nat)
    requires |probes| == |priority| && i < |priority|
    requires Transient(states, priority[i], probes[i])
    ensures RunFrom(priority, probes, i, states, tried)
      == RunFrom(priority, probes, i + 1, PassOver(states, priority[i], probes[i]),
                 tried + if Cooling(states, priority[i], probes[i].checkedAt) then 0 else 1)
  {
  }

  /** The tracker state after passing over positions `i` to `n - 1`. */
  function Settle(priority: seq<string>, probes: seq<Probe>, i: nat, n: nat, states: States): States
    requires |probes| == |priority| && i <= n <= |priority|
    decreases n - i
  {
    if i == n then states else Settle(priority, probes, i + 1, n, PassOver(states, priority[i], probes[i]))
  }

  /** Over distinct models, passing over a stretch leaves one failure on each
      model posted to, keeps the entries of the skipped ones, and touches no
      other entry. */
  lemma {:induction false} SettleShape(priority: seq<string>, probes: seq<Probe>, i: nat, n: nat, states: States)
    requires |probes| == |priority| && i <= n <= |priority| && Distinct(priority)
    ensures FailedOnce(priority, probes, i, n, states, Settle(priority, probes, i, n, states))
    ensures Untouched(priority, i, n, states, Settle(priority, probes, i, n, states))
    decreases n - i
  {
    if i < n {
      var model := priority[i];
      var next := PassOver(states, model, probes[i]);
      var after := Settle(priority, probes, i, n, states);
      SettleShape(priority, probes, i + 1, n, next);
      assert NotListed(priority, i + 1, n, model);
      forall j | i + 1 <= j < n
        ensures priority[j] in after
        ensures after[priority[j]] == (if Cooling(states, priority[j], probes[j].checkedAt) then states[priority[j]] else ModelState(1, 0))
      {
        assert priority[j] != model;
        PassOverFrame(states, model, probes[i], priority[j]);
      }
      forall m | NotListed(priority, i, n, m)
        ensures (m in after <==> m in states) && (m in states ==> after[m] == states[m])
      {
        assert m != model;
        assert NotListed(priority, i + 1, n, m);
        PassOverFrame(states, model, probes[i], m);
      }
    }
  }

  /** Over distinct models, passing over the model at `i` does not change
      whether any later model is cooling. */
  lemma CarryTransients(priority: seq<string>, probes: seq<Probe>, i: nat, n: nat, states: States)
    requires |probes| == |priority| && i < n <= |priority| && Distinct(priority)
    ensures var next := PassOver(states, priority[i], probes[i]);
      forall j :: i + 1 <= j < n ==> (Cooling(next, priority[j], probes[j].checkedAt) <==> Cooling(states, priority[j], probes[j].checkedAt))
  {
    var next := PassOver(states, priority[i], probes[i]);
    forall j | i + 1 <= j < n
      ensures Cooling(next, priority[j], probes[j].checkedAt) <==> Cooling(states, priority[j], probes[j].checkedAt)
    {
      assert priority[j] != priority[i];
      PassOverFrame(states, priority[i], probes[i], priority[j]);
    }
  }

  /** Each model at positions `i` to `n - 1` is skipped or fails in the state
      the run has reached when it comes up. */
  predicate TransientRun(priority: seq<string>, probes: seq<Probe>, i: nat, n: nat, states: States)
    requires |probes| == |priority| && i <= n <= |priority|
    decreases n - i
  {
    i == n ||
    (Transient(states, priority[i], probes[i]) &&
     TransientRun(priority, probes, i + 1, n, PassOver(states, priority[i], probes[i])))
  }

  /** How many of positions `i` to `n - 1` the run posts to. */
  function Posted(priority: seq<string>, probes: seq<Probe>, i: nat, n: nat, states: States): nat
    requires |probes| == |priority| && i <= n <= |priority|
    decreases n - i
  {
    if i == n then 0
    else (if Cooling(states, priority[i], probes[i].checkedAt) then 0 else 1)
         + Posted(priority, probes, i + 1, n, PassOver(states, priority[i], probes[i]))
  }

  /** Over distinct models, being skipped or failing in the starting state is
      being skipped or failing along the run, and the run posts to exactly
      the models available in the starting state. */
  lemma {:induction false} TransientsAlongRun(priority: seq<string>, probes: seq<Probe>, i: nat, n: nat, states: States)
    requires |probes| == |priority| && i <= n <= |priority| && Distinct(priority)
    requires forall j :: i <= j < n ==> Transient(states, priority[j], probes[j])
    ensures TransientRun(priority, probes, i, n, states)
    ensures Posted(priority, probes, i, n, states) == CountAvailable(priority, probes, i, n, states)
    decreases n - i
  {
    if i < n {
      var next := PassOver(states, priority[i], probes[i]);
      CarryTransients(priority, probes, i, n, states);
      TransientsAlongRun(priority, probes, i + 1, n, next);
      CountAvailableFrame(priority, probes, i + 1, n, next, states);
    }
  }

  /** Passing over models that are skipped or fail: the run continues at `n`
      from the settled state, with `tried` grown by the number of models
      posted to. */
  lemma {:induction false} PastTransients(priority: seq<string>, probes: seq<Probe>, i: nat, n: nat, states: States, tried: nat)
    requires |probes| == |priority| && i <= n <= |priority|
    requires TransientRun(priority, probes, i, n, states)
    ensures RunFrom(priority, probes, i, states, tried)
         == RunFrom(priority, probes, n, Settle(priority, probes, i, n, states), tried + Posted(priority, probes, i, n, states))
    decreases n - i
  {
    if i < n {
      var c := if Cooling(states, priority[i], probes[i].checkedAt) then 0 else 1;
      StepOverTransient(priority, probes, i, states, tried);
      PastTransients(priority, probes, i + 1, n, PassOver(states, priority[i], probes[i]), tried + c);
    }
  }

  /** When every model from `i` on is skipped or fails, the run is exhausted
      with `tried` counting exactly the models that passed the check; the
      failing ones hold one failure each and nothing else changes. */
  lemma ExhaustsAfterTransients(priority: seq<string>, probes: seq<Probe>, i: nat, states: States, tried: nat)
    requires |probes| == |priority| && i <= |priority| && Distinct(priority)
    requires forall j :: i <= j < |priority| ==> Transient(states, priority[j], probes[j])
    ensures var (out, after) := RunFrom(priority, probes, i, states, tried);
      && out == Exhausted(tried + CountAvailable(priority, probes, i, |priority|, states))
      && FailedOnce(priority, probes, i, |priority|, states, after)
      && Untouched(priority, i, |priority|, states, after)
  {
    TransientsAlongRun(priority, probes, i, |priority|, states);
    PastTransients(priority, probes, i, |priority|, states, tried);
    SettleShape(priority, probes, i, |priority|, states);
  }

  /** For any priority list, repeated ids included: when every model from
      `i` on is skipped or fails in the state the run has reached when it
      comes up, the run is exhausted, with `tried` grown by the number of
      models posted to. */
  lemma ExhaustsAlongRun(priority: seq<string>, probes: seq<Probe>, i: nat, states: States, tried: nat)
    requires |probes| == |priority| && i <= |priority|
    requires TransientRun(priority, probes, i, |priority|, states)
    ensures RunFrom(priority, probes, i, states, tried)
      == (Exhausted(tried + Posted(priority, probes, i, |priority|, states)), Settle(priority, probes, i, |priority|, states))
  {
    PastTransients(priority, probes, i, |priority|, states, tried);
  }

  /** The entry left by the decisive model: reset by the check if it was
      tracked, then reset again on success; no entry is created. */
  function Decide(states: States, model: string, probe: Probe): (r: States)
    ensures (model in r <==> model in states) && (model in states && !Cooling(states, model, probe.checkedAt) ==> r[model] == FRESH)
  {
    var checked := AfterCheck(states, model, probe.checkedAt);
    if Classify(probe.reply).Accept? then AfterSuccess(checked, model) else checked
  }

  /** The decisive model writes only its own entry. */
  lemma DecideFrame(states: States, model: string, probe: Probe, m: string)
    requires m != model
    ensures var r := Decide(states, model, probe);
      (m in r <==> m in states) && (m in states ==> r[m] == states[m])
  {
    WritesOnlyModel(states, model, probe.checkedAt, m);
    WritesOnlyModel(AfterCheck(states, model, probe.checkedAt), model, probe.failedAt, m);
  }

  /** An available model whose reply is not a recorded failure ends the run there. */
  lemma DecidesAt(priority: seq<string>, probes: seq<Probe>, n: nat, states: States, tried: nat)
    requires |probes| == |priority| && n < |priority|
    requires IsAvailable(states, priority[n], probes[n].checkedAt) && !Classify(probes[n].reply).Retry?
    ensures RunFrom(priority, probes, n, states, tried)
      == (if Classify(probes[n].reply).Accept? then Success(Classify(probes[n].reply).text) else AuthFailure,
          Decide(states, priority[n], probes[n]))
  {
  }

  /** A write to one model outside positions `i` to `n - 1` keeps `FailedOnce`. */
  lemma KeepFailedOnce(priority: seq<string>, probes: seq<Probe>, i: nat, n: nat, before: States, mid: States, after: States, model: string)
    requires |probes| == |priority| && i <= n <= |priority|
    requires FailedOnce(priority, probes, i, n, before, mid)
    requires NotListed(priority, i, n, model)
    requires forall m :: m != model ==> (m in after <==> m in mid) && (m in mid ==> after[m] == mid[m])
    ensures FailedOnce(priority, probes, i, n, before, after)
  {
    forall j | i <= j < n
      ensures priority[j] in after && after[priority[j]] == mid[priority[j]]
    {
      assert priority[j] != model;
    }
  }

  /** A write to the model at position `n` widens `Untouched` to position `n`. */
  lemma KeepUntouched(priority: seq<string>, i: nat, n: nat, before: States, mid: States, after: States)
    requires i <= n < |priority|
    requires Untouched(priority, i, n, before, mid)
    requires forall m :: m != priority[n] ==> (m in after <==> m in mid) && (m in mid ==> after[m] == mid[m])
    ensures Untouched(priority, i, n + 1, before, after)
  {
    forall m | NotListed(priority, i, n + 1, m)
      ensures (m in after <==> m in before) && (m in before ==> after[m] == before[m])
    {
      assert NotListed(priority, i, n, m);
      assert m != priority[n];
    }
  }

  /** Over distinct models, the model at `n` is not listed before it. */
  lemma FirstAt(priority: seq<string>, i: nat, n: nat)
    requires i <= n < |priority| && Distinct(priority)
    ensures NotListed(priority, i, n, priority[n])
  {
  }

  /** For any priority list, repeated ids included: after a stretch of
      models that are skipped or fail, the first model that passes its check
      in the state reached and does not fail decides the run, and only its
      own entry is written after the stretch. */
  lemma DecidesAfterRun(priority: seq<string>, probes: seq<Probe>, i: nat, n: nat, states: States, tried: nat)
    requires |probes| == |priority| && i <= n < |priority|
    requires TransientRun(priority, probes, i, n, states)
    requires var mid := Settle(priority, probes, i, n, states);
      IsAvailable(mid, priority[n], probes[n].checkedAt) && !Classify(probes[n].reply).Retry?
    ensures RunFrom(priority, probes, i, states, tried)
      == (if Classify(probes[n].reply).Accept? then Success(Classify(probes[n].reply).text) else AuthFailure,
          Decide(Settle(priority, probes, i, n, states), priority[n], probes[n]))
  {
    PastTransients(priority, probes, i, n, states, tried);
    DecidesAt(priority, probes, n, Settle(priority, probes, i, n, states), tried + Posted(priority, probes, i, n, states));
  }

  /** The first model that passes the check and does not fail decides the
      run: a non-blank 200 reply is returned, a 401/403 aborts. Every earlier
      model that was posted to got exactly one recorded failure, the decisive
      model holds no failure (its entry is reset if it had one, and none is
      created), and no later model is touched. */
  lemma StopsAtFirstDecisive(priority: seq<string>, probes: seq<Probe>, i: nat, n: nat, states: States, tried: nat)
    requires |probes| == |priority| && i <= n < |priority| && Distinct(priority)
    requires forall j :: i <= j < n ==> Transient(states, priority[j], probes[j])
    requires IsAvailable(states, priority[n], probes[n].checkedAt) && !Classify(probes[n].reply).Retry?
    ensures var (out, after) := RunFrom(priority, probes, i, states, tried);
      && out == (if Classify(probes[n].reply).Accept? then Success(Classify(probes[n].reply).text) else AuthFailure)
      && FailedOnce(priority, probes, i, n, states, after)
      && (priority[n] in after <==> priority[n] in states)
      && (priority[n] in states ==> after[priority[n]] == FRESH)
      && Untouched(priority, i, n + 1, states, after)
  {
    var mid := Settle(priority, probes, i, n, states);
    var model := priority[n];
    var tried' := tried + Posted(priority, probes, i, n, states);
    TransientsAlongRun(priority, probes, i, n, states);
    PastTransients(priority, probes, i, n, states, tried);
    SettleShape(priority, probes, i, n, states);
    FirstAt(priority, i, n);
    assert model in mid <==> model in states;
    assert model in states ==> mid[model] == states[model];
    DecidesAt(priority, probes, n, mid, tried');
    var after := Decide(mid, model, probes[n]);
    forall m | m != model
      ensures (m in after <==> m in mid) && (m in mid ==> after[m] == mid[m])
    {
      DecideFrame(mid, model, probes[n], m);
    }
    KeepFailedOnce(priority, probes, i, n, states, mid, after, model);
    KeepUntouched(priority, i, n, states, mid, after);
  }

  /** The three-model scenario: the first two models answer 429 and the
      third answers with usable content (for instance "hello"). */
  function Scenario(now: nat, text: string): seq<Probe> {
    [Probe(now, Status(429), now), Probe(now, Status(429), now), Probe(now, Ok200(Some(text)), now)]
  }

  /** The tracker after the scenario: one failure on each of the first two models. */
  function FailedTwice(a: string, b: string): States {
    map[a := ModelState(1, 0), b := ModelState(1, 0)]
  }

  /** From an empty tracker, the scenario returns the third model's reply and
      leaves one failure on each of the first two models. */
  lemma RateLimitedThenReply(a: string, b: string, c: string, now: nat, text: string)
    requires a != b && b != c && a != c
    requires !IsBlank(text)
    ensures Dispatch(true, [a, b, c], Scenario(now, text), map[]) == (Success(text), FailedTwice(a, b))
  {
    var priority := [a, b, c];
    var probes := Scenario(now, text);
    var failed := ModelState(1, 0);
    calc {
      RunFrom(priority, probes, 0, map[], 0);
      { StepOverTransient(priority, probes, 0, map[], 0); }
      RunFrom(priority, probes, 1, map[a := failed], 1);
      { StepOverTransient(priority, probes, 1, map[a := failed], 1); }
      RunFrom(priority, probes, 2, FailedTwice(a, b), 2);
      (Success(text), FailedTwice(a, b));
    }
  }

  /** Failing again a model that holds one failure and is not cooling
      leaves the tracker as it was. */
  lemma FailAgainIsNoop(states: States, model: string, probe: Probe)
    requires model in states && states[model] == ModelState(1, 0)
    ensures PassOver(states, model, probe) == states
  {
    assert states[model := FRESH][model := ModelState(1, 0)] == states;
  }

  /** Running the scenario again, after the first run has finished, from the
      state it left gives the same reply and the same state: the check resets
      each counter before the next failure is counted, so repeating it one
      run at a time never puts a model in cooldown. */
  lemma RateLimitedRerun(a: string, b: string, c: string, now: nat, text: string)
    requires a != b && b != c && a != c
    requires !IsBlank(text)
    ensures Dispatch(true, [a, b, c], Scenario(now, text), FailedTwice(a, b)) == (Success(text), FailedTwice(a, b))
  {
    var priority := [a, b, c];
    var probes := Scenario(now, text);
    var once := FailedTwice(a, b);
    calc {
      RunFrom(priority, probes, 0, once, 0);
      { StepOverTransient(priority, probes, 0, once, 0);
        FailAgainIsNoop(once, a, probes[0]); }
      RunFrom(priority, probes, 1, once, 1);
      { StepOverTransient(priority, probes, 1, once, 1);
        FailAgainIsNoop(once, b, probes[1]); }
      RunFrom(priority, probes, 2, once, 2);
      (Success(text), once);
    }
  }
}
