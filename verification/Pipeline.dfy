/** Validate, record, apply: the pipeline around the reducer, its persistence, and the bootstrap that
    seeds it with the configured models. */
module Pipeline {
  import opened Types
  import opened Health
  import opened Reducers
  import opened Ledger

  class EventPipeline {
    const state: State
    var eventLog: seq<Event>

    /** The live state is the replay of the log: what `verify_replay` checks at run time. */
    ghost predicate Live()
      reads this, state
    {
      state.View() == Replay(eventLog)
    }

    constructor ()
      ensures Live() && eventLog == [] && fresh(state)
    {
      state := new State();
      eventLog := [];
    }

    /** An invalid event changes nothing; a valid one is appended to the log and applied. */
    method Process(e: Event, root: real -> real) returns (error: Option<ValidationError>)
      requires Live() && IsSqrt(root)
      modifies this, state
      ensures Live()
      ensures error == Validate(e)
      ensures eventLog == if error.None? then old(eventLog) + [e] else old(eventLog)
    {
      error := Validate(e);
      if error.Some? {
        return;
      }
      eventLog := eventLog + [e];
      state.Dispatch(e, root);
      assert eventLog[..|eventLog| - 1] == old(eventLog);
    }

    /** Rebuild a state from the log alone. */
    method Rebuild(root: real -> real) returns (rebuilt: State)
      requires IsSqrt(root)
      ensures fresh(rebuilt) && rebuilt.View() == Replay(eventLog)
    {
      rebuilt := new State();
      for i := 0 to |eventLog|
        invariant fresh(rebuilt) && rebuilt.View() == Replay(eventLog[..i])
      {
        rebuilt.Dispatch(eventLog[i], root);
        assert eventLog[..i + 1][..i] == eventLog[..i];
      }
      assert eventLog[..|eventLog|] == eventLog;
    }

    /** Replay verification never fails. */
    method VerifyReplay(root: real -> real) returns (ok: bool)
      requires Live() && IsSqrt(root)
      ensures ok
    {
      var rebuilt := Rebuild(root);
      ok := state.View() == rebuilt.View();
    }

    method SaveToLedger(c: Codec) returns (content: string)
      ensures content == Saved(c, eventLog)
    {
      var store := new LedgerStore();
      store.AppendAll(c, eventLog);
      content := store.Persist(c);
    }

    /** Take over the events of a file without validating them again.  The source builds a new
        pipeline; here it is the receiver, which must be empty. */
    method LoadFromLedger(c: Codec, file: Option<string>, root: real -> real) returns (error: Option<LedgerError>)
      requires Live() && eventLog == [] && IsSqrt(root)
      modifies this, state
      ensures Live()
      ensures match Loaded(c, Content(file))
        case Ok(entries) => error == None && eventLog == Events(entries)
        case Err(e) => error == Some(e) && eventLog == []
    {
      var store := new LedgerStore();
      error := store.Load(c, file);
      if error.Some? {
        return;
      }
      TakeOver(Events(store.entries), root);
    }

    /** The loop of the load: every event is applied and logged, none is validated. */
    method TakeOver(events: seq<Event>, root: real -> real)
      requires Live() && eventLog == [] && IsSqrt(root)
      modifies this, state
      ensures Live() && eventLog == events
    {
      for i := 0 to |events|
        invariant Live() && eventLog == events[..i]
      {
        state.Dispatch(events[i], root);
        eventLog := eventLog + [events[i]];
        assert eventLog[..|eventLog| - 1] == events[..i];
      }
      assert events[..|events|] == events;
    }
  }

  /** The file written for a log. */
  function Saved(c: Codec, log: seq<Event>): string {
    Printed(c, Chain(c, log))
  }

  /** Restarting from a saved file loses nothing: the file is accepted, and it yields the same log. */
  lemma SaveLoadRoundTrip(c: Codec, log: seq<Event>)
    requires PrintsThese(c, Chain(c, log))
    ensures Loaded(c, Saved(c, log)).Ok? && Events(Loaded(c, Saved(c, log)).value) == log
  {
    ChainIsAccepted(c, log);
    PersistThenLoad(c, Chain(c, log));
  }

  /** A whole restart at the level of objects: save one live pipeline, load another from the file. */
  method Restart(p: EventPipeline, q: EventPipeline, c: Codec, root: real -> real)
    requires p.Live() && q.Live() && q.eventLog == [] && PrintsThese(c, Chain(c, p.eventLog)) && IsSqrt(root)
    requires p != q && p.state != q.state
    modifies q, q.state
    ensures q.Live() && q.eventLog == p.eventLog && q.state.View() == p.state.View()
  {
    var content := p.SaveToLedger(c);
    SaveLoadRoundTrip(c, p.eventLog);
    var error := q.LoadFromLedger(c, Some(content), root);
    assert error == None;
  }

  // ----- bootstrap ------------------------------------------------------------------------------------

  /** The configured models that the loaded state does not know, as events. */
  function Missing(known: seq<Model>, configured: seq<Model>): seq<Event> {
    if configured == [] then []
    else
      var before, m := Missing(known, configured[..|configured| - 1]), configured[|configured| - 1];
      if HasModel(known, m.id) then before else before + [ModelAdded(m, LocalConfig)]
  }

  function LoadedLog(c: Codec, file: Option<string>): seq<Event> {
    match Loaded(c, Content(file))
    case Ok(entries) => Events(entries)
    case Err(_) => []
  }

  /** The log a bootstrap ends up with; an unreadable ledger counts as an empty one. */
  function Bootstrapped(c: Codec, file: Option<string>, configured: seq<Model>): seq<Event> {
    LoadedLog(c, file) + Missing(Replay(LoadedLog(c, file)).models, configured)
  }

  method Bootstrap(p: EventPipeline, c: Codec, file: Option<string>, configured: seq<Model>, root: real -> real)
    requires p.Live() && p.eventLog == [] && IsSqrt(root)
    modifies p, p.state
    ensures p.Live() && p.eventLog == Bootstrapped(c, file, configured)
  {
    var _ := p.LoadFromLedger(c, file, root);
    assert p.eventLog == LoadedLog(c, file);
    AddMissing(p, p.state.models, configured, root);
  }

  /** The loop of the bootstrap, over the models that were there before it. */
  method AddMissing(p: EventPipeline, existing: seq<Model>, configured: seq<Model>, root: real -> real)
    requires p.Live() && IsSqrt(root)
    modifies p, p.state
    ensures p.Live() && p.eventLog == old(p.eventLog) + Missing(existing, configured)
  {
    for i := 0 to |configured|
      invariant p.Live() && p.eventLog == old(p.eventLog) + Missing(existing, configured[..i])
    {
      MissingNext(existing, configured, i);
      if !HasModel(existing, configured[i].id) {
        var _ := p.Process(ModelAdded(configured[i], LocalConfig), root);
      }
    }
    assert configured[..|configured|] == configured;
  }

  lemma MissingNext(known: seq<Model>, configured: seq<Model>, i: nat)
    requires i < |configured|
    ensures Missing(known, configured[..i + 1]) == Missing(known, configured[..i]) +
      if HasModel(known, configured[i].id) then [] else [ModelAdded(configured[i], LocalConfig)]
  {
    assert configured[..i + 1][..i] == configured[..i];
  }

  /** What a bootstrap appends: additions from the local configuration, of configured models that were unknown,
      and all of them. */
  lemma {:induction false} MissingAre(known: seq<Model>, configured: seq<Model>)
    ensures forall e :: e in Missing(known, configured) <==>
      e.ModelAdded? && e.source == LocalConfig && e.model in configured && !HasModel(known, e.model.id)
  {
    if configured != [] {
      var front, m := configured[..|configured| - 1], configured[|configured| - 1];
      MissingAre(known, front);
      assert configured == front + [m];
    }
  }

  lemma AddedLast(log: seq<Event>, m: Model)
    ensures var before, after := Replay(log).models, Replay(log + [ModelAdded(m, LocalConfig)]).models;
      && before <= after && (HasModel(before, m.id) ==> after == before)
      && (forall id :: HasModel(after, id) <==> HasModel(before, id) || id == m.id)
  {
    assert (log + [ModelAdded(m, LocalConfig)])[..|log|] == log;
    HasModelSnoc(Replay(log).models, m);
  }

  /** What a bootstrap does to the state: loaded models stay, in place, as a prefix; the ids afterwards
      are the loaded ones and the configured ones. */
  lemma {:induction false} BootstrapModels(log: seq<Event>, configured: seq<Model>)
    ensures var before, after := Replay(log).models, Replay(log + Missing(Replay(log).models, configured)).models;
      && before <= after
      && (forall id :: HasModel(after, id) <==> HasModel(before, id) || HasModel(configured, id))
  {
    var before := Replay(log).models;
    if configured == [] {
      assert log + Missing(before, configured) == log;
    } else {
      var front, m := configured[..|configured| - 1], configured[|configured| - 1];
      BootstrapModels(log, front);
      HasModelSnoc(front, m);
      assert configured == front + [m];
      if !HasModel(before, m.id) {
        var fewer := Missing(before, front);
        AddedLast(log + fewer, m);
        assert log + Missing(before, configured) == (log + fewer) + [ModelAdded(m, LocalConfig)];
      }
    }
  }

  lemma HasModelSnoc(models: seq<Model>, m: Model)
    ensures forall id :: HasModel(models + [m], id) <==> HasModel(models, id) || id == m.id
  {
    var grown := models + [m];
    forall id ensures HasModel(grown, id) <==> HasModel(models, id) || id == m.id {
      assert grown[|models|] == m;
      if HasModel(models, id) {
        var i :| 0 <= i < |models| && models[i].id == id;
        assert grown[i].id == id;
      }
    }
  }

  lemma {:induction false} NothingMissing(known: seq<Model>, configured: seq<Model>)
    requires forall id :: HasModel(configured, id) ==> HasModel(known, id)
    ensures Missing(known, configured) == []
  {
    if configured != [] {
      var front, m := configured[..|configured| - 1], configured[|configured| - 1];
      HasModelSnoc(front, m);
      assert configured == front + [m];
      NothingMissing(known, front);
    }
  }

  /** Every configured id is registered exactly once, and models loaded from the ledger keep their place. */
  lemma BootstrapRegisters(c: Codec, file: Option<string>, configured: seq<Model>)
    ensures var v := Replay(Bootstrapped(c, file, configured));
      && Replay(LoadedLog(c, file)).models <= v.models
      && DistinctIds(v.models)
      && (forall i :: 0 <= i < |configured| ==> HasModel(v.models, configured[i].id))
  {
    BootstrapModels(LoadedLog(c, file), configured);
    ReachableConsistent(Bootstrapped(c, file, configured));
    forall i | 0 <= i < |configured| ensures HasModel(configured, configured[i].id) {
    }
  }

  /** Bootstrapping again from the file saved after a bootstrap appends nothing. */
  lemma BootstrapIdempotent(c: Codec, file: Option<string>, configured: seq<Model>)
    requires PrintsThese(c, Chain(c, Bootstrapped(c, file, configured)))
    ensures var log := Bootstrapped(c, file, configured);
      Bootstrapped(c, Some(Saved(c, log)), configured) == log
  {
    var log := Bootstrapped(c, file, configured);
    SaveLoadRoundTrip(c, log);
    BootstrapModels(LoadedLog(c, file), configured);
    NothingMissing(Replay(log).models, configured);
    assert log + [] == log;
  }
}
