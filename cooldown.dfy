/**
 * The per-model failure tracker (app.py `_model_state`, `_mark_model_failed`,
 * `_is_model_available`). Time is a natural-number clock reading passed in by
 * the caller; "never cooled" is the reading 0, as the source's 0.0.
 */
module Cooldown {

  /** `MODEL_FAILURE_THRESHOLD` at its default. */
  const FAILURE_THRESHOLD: nat := 2
  /** `MODEL_COOLDOWN_SECONDS` at its default. */
  const COOLDOWN_SECONDS: nat := 60

  /** One entry of `_model_state`: `{"fails": ..., "skip_until": ...}`. */
  datatype ModelState = ModelState(fails: nat, skipUntil: nat)

  /** The entry `setdefault` creates and the resets write back. */
  const FRESH: ModelState := ModelState(0, 0)

  type States = map<string, ModelState>

  /** The entry of `model`, or the one `setdefault` would create. */
  function StateOf(states: States, model: string): ModelState {
    if model in states then states[model] else FRESH
  }

  /** The model is tracked and its cooldown has not yet run out. */
  predicate Cooling(states: States, model: string, now: nat) {
    model in states && now < states[model].skipUntil
  }

  /** The answer of `_is_model_available`. */
  predicate IsAvailable(states: States, model: string, now: nat) {
    !Cooling(states, model, now)
  }

  /** The state `_is_model_available` leaves: a tracked model whose
      `skip_until` has been reached, including the never-cooled 0, is reset to
      (0, 0); otherwise nothing changes. */
  function AfterCheck(states: States, model: string, now: nat): (r: States)
    ensures model in r <==> model in states
    ensures model in states && now >= states[model].skipUntil ==> r[model] == FRESH
    ensures model in states && now < states[model].skipUntil ==> r[model] == states[model]
  {
    if model in states && now >= states[model].skipUntil then states[model := FRESH] else states
  }

  /** The state `_mark_model_failed` leaves: the entry is created if absent,
      `fails` goes up by one, and `skip_until` moves to `now + COOLDOWN_SECONDS`
      exactly when the new count reaches the threshold. */
  function AfterFailure(states: States, model: string, now: nat): (r: States)
    ensures model in r
    ensures r[model].fails == StateOf(states, model).fails + 1
    ensures r[model].fails >= FAILURE_THRESHOLD ==> r[model].skipUntil == now + COOLDOWN_SECONDS
    ensures r[model].fails < FAILURE_THRESHOLD ==> r[model].skipUntil == StateOf(states, model).skipUntil
  {
    var s := StateOf(states, model);
    var fails := s.fails + 1;
    states[model := ModelState(fails, if fails >= FAILURE_THRESHOLD then now + COOLDOWN_SECONDS else s.skipUntil)]
  }

  /** The reset on a successful reply (app.py:162-163): only an already
      tracked model is written. */
  function AfterSuccess(states: States, model: string): (r: States)
    ensures model in r <==> model in states
    ensures model in states ==> r[model] == FRESH
  {
    if model in states then states[model := FRESH] else states
  }

  /** The check, a failure and a success each write only the entry of the
      model concerned: every other entry is kept, and no other is created. */
  lemma WritesOnlyModel(states: States, model: string, now: nat, m: string)
    requires m != model
    ensures var c := AfterCheck(states, model, now);
      (m in c <==> m in states) && (m in states ==> c[m] == states[m])
    ensures var f := AfterFailure(states, model, now);
      (m in f <==> m in states) && (m in states ==> f[m] == states[m])
    ensures var s := AfterSuccess(states, model);
      (m in s <==> m in states) && (m in states ==> s[m] == states[m])
  {
  }

  /** A failure that reaches the threshold excludes the model for exactly
      `COOLDOWN_SECONDS`: every check before `now + COOLDOWN_SECONDS` answers
      false and changes nothing, and the first check at or after it answers
      true and resets the counter. */
  lemma CooldownWindow(states: States, model: string, now: nat, later: nat)
    requires StateOf(states, model).fails + 1 >= FAILURE_THRESHOLD
    ensures var r := AfterFailure(states, model, now);
      && (later < now + COOLDOWN_SECONDS ==> !IsAvailable(r, model, later) && AfterCheck(r, model, later) == r)
      && (later >= now + COOLDOWN_SECONDS ==> IsAvailable(r, model, later) && AfterCheck(r, model, later)[model] == FRESH)
  {
  }

  /** No entry is in cooldown and none has reached the threshold. */
  predicate NeverCooled(states: States) {
    forall m :: m in states ==> states[m].skipUntil == 0 && states[m].fails < FAILURE_THRESHOLD
  }

  /** In a never-cooled state every model is available at every time. */
  lemma NeverCooledAllAvailable(states: States, model: string, now: nat)
    requires NeverCooled(states)
    ensures IsAvailable(states, model, now)
  {
  }

  /** The check made before every attempt resets a never-cooled entry, so the
      one failure that may follow leaves the count at 1, below the threshold
      of 2: a check followed by a failure keeps the state never-cooled. */
  lemma CheckThenFailureStaysCool(states: States, model: string, checkedAt: nat, failedAt: nat)
    requires NeverCooled(states)
    ensures NeverCooled(AfterCheck(states, model, checkedAt))
    ensures NeverCooled(AfterFailure(AfterCheck(states, model, checkedAt), model, failedAt))
    ensures AfterFailure(AfterCheck(states, model, checkedAt), model, failedAt)[model] == ModelState(1, 0)
  {
  }

  /** Two checks of the same available model, both made before either
      failure is recorded (as when two runs post to it at once), reset it
      only once: the two failures that follow reach the threshold, and the
      model is cooling for `COOLDOWN_SECONDS` from the second one. */
  lemma InterleavedFailuresCool(states: States, model: string, t: nat, t1: nat, t2: nat)
    requires IsAvailable(states, model, t)
    ensures var checked := AfterCheck(AfterCheck(states, model, t), model, t);
      var r := AfterFailure(AfterFailure(checked, model, t1), model, t2);
      && r[model] == ModelState(2, t2 + COOLDOWN_SECONDS)
      && Cooling(r, model, t2)
      && !Cooling(r, model, t2 + COOLDOWN_SECONDS)
  {
  }

  /** `_model_state` and the two operations that update it in place. */
  class Tracker {
    var states: States

    constructor ()
      ensures states == map[]
    {
      states := map[];
    }

    /** `_mark_model_failed(model)` at clock reading `now`. */
    method MarkFailed(model: string, now: nat)
      modifies this
      ensures states == AfterFailure(old(states), model, now)
    {
      var s := if model in states then states[model] else FRESH;
      var fails := s.fails + 1;
      var skipUntil := s.skipUntil;
      if fails >= FAILURE_THRESHOLD {
        skipUntil := now + COOLDOWN_SECONDS;
      }
      states := states[model := ModelState(fails, skipUntil)];
    }

    /** `_is_model_available(model)` at clock reading `now`. */
    method CheckAvailable(model: string, now: nat) returns (available: bool)
      modifies this
      ensures available == IsAvailable(old(states), model, now)
      ensures states == AfterCheck(old(states), model, now)
    {
      if model !in states {
        return true;
      }
      if now >= states[model].skipUntil {
        states := states[model := FRESH];
        return true;
      }
      return false;
    }

    /** The reset after a successful reply. */
    method RecordSuccess(model: string)
      modifies this
      ensures states == AfterSuccess(old(states), model)
    {
      if model in states {
        states := states[model := FRESH];
      }
    }
  }
}
