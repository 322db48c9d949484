/**
 * An external IP source of the newer tree: per family an optional list of solver
 * references with a query mode, validated from the custom resource and queried against
 * the solver registry.
 */
module ExtSource {
  import opened Wrappers
  import opened Ip
  import Crd
  import opened ExtErrors
  import opened ExtSolverCells
  import ExtMerge
  import ExtSolvers

  datatype QueryMode = FirstFound | All

  /** `From<v1alpha1::QueryMode>`. */
  function QueryModeFrom(m: Crd.QueryMode): (r: QueryMode)
    ensures r.FirstFound? <==> m.FirstFound?
    ensures r.All? <==> m.All?
  {
    match m
    case FirstFound => FirstFound
    case All => All
  }

  /** The outcome of a query and the registry after it. */
  datatype Outcome<T> = Outcome(result: Result<T, IpSourceError>, cells: Cells)

  /** What one solver of a list contributes: addresses, nothing, or the end of the query. */
  datatype SolverOutcome = Answered(addrs: seq<IpAddr>) | Skipped | Aborted(error: IpSourceError)

  /** The failures that end a list query instead of skipping the solver. */
  predicate Fatal(e: IpSourceError) {
    e.Solver? && (e.solverError.NotFound? || e.solverError.LockTimeout? || e.solverError.Panicked?)
  }

  /** `t` is what the solver under `key` contributes when it was found and its lock taken. */
  predicate DispatchedAs(cells: Cells, key: RegistryKey, env: Env, t: (SolverOutcome, Cells))
    requires Consistent(cells) && key in cells
  {
    var p := ExtSolvers.Dispatch(cells, key, env);
    t.1 == p.cells &&
    (t.0.Answered? <==> p.result.Ok? && p.result.value != []) &&
    (t.0.Answered? ==> t.0.addrs == p.result.value) &&
    (t.0.Aborted? <==> p.result == Err(Panicked))
  }

  /**
   * One solver reference of a list: a missing cell or a lock timeout ends the query, an
   * error or an empty answer skips the solver. A panic of the solver ends it too.
   */
  function ListTurn(cells: Cells, key: RegistryKey, env: Env): (t: (SolverOutcome, Cells))
    requires Consistent(cells)
    ensures Consistent(t.1) && t.1.Keys == cells.Keys
    ensures t.0.Answered? ==> t.0.addrs != []
    ensures t.0.Aborted? ==> Fatal(t.0.error)
    ensures key !in cells ==> t == (Aborted(Solver(NotFound(key.0, key.1))), cells)
    ensures key in cells && key in env.contended ==> t == (Aborted(Solver(LockTimeout)), cells)
    ensures key in cells && key !in env.contended ==> DispatchedAs(cells, key, env, t)
  {
    match Acquire(cells, key, env)
    case Err(e) => (Aborted(Solver(e)), cells)
    case Ok(_) =>
      var p := ExtSolvers.Dispatch(cells, key, env);
      match p.result
      case Ok(addrs) => (if addrs == [] then Skipped else Answered(addrs), p.cells)
      case Err(e) => (if e == Panicked then Aborted(Solver(Panicked)) else Skipped, p.cells)
  }

  /** A list query's trace is well formed: answers are non-empty, and only its last entry may abort, fatally. */
  predicate WellFormedTrace(ts: seq<SolverOutcome>) {
    (forall j :: 0 <= j < |ts| && ts[j].Answered? ==> ts[j].addrs != []) &&
    (forall j :: 0 <= j < |ts| && ts[j].Aborted? ==> j == |ts| - 1 && Fatal(ts[j].error))
  }

  lemma ConsWellFormed(t: SolverOutcome, rest: seq<SolverOutcome>)
    requires WellFormedTrace(rest) && !t.Aborted? && (t.Answered? ==> t.addrs != [])
    ensures WellFormedTrace([t] + rest)
    ensures rest != [] ==> ([t] + rest)[|rest|] == rest[|rest| - 1]
  {
    var ts := [t] + rest;
    forall j | 1 <= j < |ts| ensures ts[j] == rest[j - 1] { }
  }

  /**
   * The trace of querying every solver reference from `i` on, independent of the query
   * mode: what each solver contributed, up to the first abort.
   */
  function Trace(refs: seq<Crd.SolverKind>, i: nat, kind: AddressKind, env: Env, cells: Cells): (ts: seq<SolverOutcome>)
    requires i <= |refs| && Consistent(cells)
    ensures |ts| <= |refs| - i
    ensures WellFormedTrace(ts)
    ensures |ts| < |refs| - i ==> ts != [] && ts[|ts| - 1].Aborted?
    decreases |refs| - i
  {
    if i == |refs| then []
    else
      var t := ListTurn(cells, (refs[i], kind), env);
      var turn := t.0;
      if turn.Aborted? then
        assert WellFormedTrace([turn]) by { assert Fatal(turn.error); }
        [turn]
      else
        var rest := Trace(refs, i + 1, kind, env, t.1);
        ConsWellFormed(turn, rest);
        [turn] + rest
  }

  /**
   * The loop of `SolverList::query` from reference `i` on, with `collected` the addresses
   * gathered so far in `All` mode.
   */
  function ListFrom(refs: seq<Crd.SolverKind>, i: nat, kind: AddressKind, mode: QueryMode, env: Env, cells: Cells, collected: seq<IpAddr>): (o: Outcome<seq<IpAddr>>)
    requires i <= |refs| && Consistent(cells)
    ensures Consistent(o.cells) && o.cells.Keys == cells.Keys
    decreases |refs| - i
  {
    if i == |refs| then
      Outcome(if mode.All? && collected != [] then Ok(collected) else Err(Solver(NoAddresses)), cells)
    else
      var t := ListTurn(cells, (refs[i], kind), env);
      match t.0
      case Aborted(e) => Outcome(Err(e), t.1)
      case Skipped => ListFrom(refs, i + 1, kind, mode, env, t.1, collected)
      case Answered(addrs) =>
        if mode.FirstFound? then Outcome(Ok(addrs), t.1)
        else ListFrom(refs, i + 1, kind, mode, env, t.1, collected + addrs)
  }

  /** The first answer of a trace, or its abort, or no addresses at all. */
  function FirstHit(ts: seq<SolverOutcome>): (r: Result<seq<IpAddr>, IpSourceError>) {
    if ts == [] then Err(Solver(NoAddresses))
    else
      match ts[0]
      case Answered(addrs) => Ok(addrs)
      case Aborted(e) => Err(e)
      case Skipped => FirstHit(ts[1..])
  }

  /** Every answer of a trace, concatenated in order. */
  function Answers(ts: seq<SolverOutcome>): (addrs: seq<IpAddr>)
    ensures ts == [] ==> addrs == []
  {
    if ts == [] then [] else (if ts[0].Answered? then ts[0].addrs else []) + Answers(ts[1..])
  }

  /** `All` mode over a trace: an abort wins, else all answers, if there are any. */
  function AllResult(ts: seq<SolverOutcome>, collected: seq<IpAddr>): (r: Result<seq<IpAddr>, IpSourceError>) {
    if ts != [] && ts[|ts| - 1].Aborted? then Err(ts[|ts| - 1].error)
    else if collected + Answers(ts) == [] then Err(Solver(NoAddresses))
    else Ok(collected + Answers(ts))
  }

  /** `FirstFound` mode returns the first answer of the trace. */
  lemma {:induction false} FirstFoundIsFirstHit(refs: seq<Crd.SolverKind>, i: nat, kind: AddressKind, env: Env, cells: Cells, collected: seq<IpAddr>)
    requires i <= |refs| && Consistent(cells)
    ensures ListFrom(refs, i, kind, FirstFound, env, cells, collected).result == FirstHit(Trace(refs, i, kind, env, cells))
    decreases |refs| - i
  {
    if i < |refs| {
      var t := ListTurn(cells, (refs[i], kind), env);
      if t.0.Skipped? {
        FirstFoundIsFirstHit(refs, i + 1, kind, env, t.1, collected);
        var rest := Trace(refs, i + 1, kind, env, t.1);
        assert ([t.0] + rest)[1..] == rest;
      }
    }
  }

  lemma AnswersCons(t: SolverOutcome, rest: seq<SolverOutcome>)
    ensures Answers([t] + rest) == (if t.Answered? then t.addrs else []) + Answers(rest)
  {
    assert ([t] + rest)[1..] == rest;
  }

  /** One step of `AllResult`: a turn that does not abort moves its answer into the collected addresses. */
  lemma AllResultCons(t: SolverOutcome, rest: seq<SolverOutcome>, collected: seq<IpAddr>)
    requires !t.Aborted?
    ensures AllResult([t] + rest, collected) == AllResult(rest, if t.Answered? then collected + t.addrs else collected)
  {
    AnswersCons(t, rest);
    var ts := [t] + rest;
    var a := if t.Answered? then t.addrs else [];
    var c' := if t.Answered? then collected + t.addrs else collected;
    assert c' == collected + a;
    assert collected + Answers(ts) == c' + Answers(rest) by {
      assert Answers(ts) == a + Answers(rest);
      assert collected + (a + Answers(rest)) == (collected + a) + Answers(rest);
    }
    if rest != [] {
      assert ts[|ts| - 1] == rest[|rest| - 1];
    } else {
      assert ts[|ts| - 1] == t;
    }
  }

  /** `All` mode returns every answer of the trace in order, unless the trace ends in an abort. */
  lemma {:induction false} AllIsEveryAnswer(refs: seq<Crd.SolverKind>, i: nat, kind: AddressKind, env: Env, cells: Cells, collected: seq<IpAddr>)
    requires i <= |refs| && Consistent(cells)
    ensures ListFrom(refs, i, kind, All, env, cells, collected).result == AllResult(Trace(refs, i, kind, env, cells), collected)
    decreases |refs| - i
  {
    if i < |refs| {
      var t := ListTurn(cells, (refs[i], kind), env);
      if !t.0.Aborted? {
        var c' := if t.0.Answered? then collected + t.0.addrs else collected;
        var rest := Trace(refs, i + 1, kind, env, t.1);
        assert Trace(refs, i, kind, env, cells) == [t.0] + rest;
        assert ListFrom(refs, i, kind, All, env, cells, collected) == ListFrom(refs, i + 1, kind, All, env, t.1, c');
        AllIsEveryAnswer(refs, i + 1, kind, env, t.1, c');
        AllResultCons(t.0, rest, collected);
      } else {
        assert Trace(refs, i, kind, env, cells) == [t.0];
      }
    } else {
      assert collected + Answers([]) == collected;
    }
  }

  /** In both modes the query finds nothing exactly when every solver was skipped. */
  lemma {:induction false} NothingFoundIffAllSkipped(ts: seq<SolverOutcome>)
    requires WellFormedTrace(ts)
    ensures FirstHit(ts) == Err(Solver(NoAddresses)) <==> forall j :: 0 <= j < |ts| ==> ts[j].Skipped?
    ensures AllResult(ts, []) == Err(Solver(NoAddresses)) <==> forall j :: 0 <= j < |ts| ==> ts[j].Skipped?
  {
    if ts != [] {
      var rest := ts[1..];
      assert WellFormedTrace(rest) by {
        forall j | 0 <= j < |rest| ensures rest[j] == ts[j + 1] { }
      }
      NothingFoundIffAllSkipped(rest);
      AnswersCons(ts[0], rest);
      assert ts == [ts[0]] + rest;
      assert (forall j :: 0 <= j < |ts| ==> ts[j].Skipped?) <==> ts[0].Skipped? && forall j :: 0 <= j < |rest| ==> rest[j].Skipped? by {
        if ts[0].Skipped? && forall j :: 0 <= j < |rest| ==> rest[j].Skipped? {
          forall j | 0 <= j < |ts| ensures ts[j].Skipped? {
            if j > 0 { assert ts[j] == rest[j - 1]; }
          }
        }
      }
      if rest != [] {
        assert ts[|ts| - 1] == rest[|rest| - 1];
      }
      if ts[0].Aborted? {
        assert Fatal(ts[0].error);
      }
      AllSkippedHasNoAnswers(rest);
    }
  }

  lemma {:induction false} AllSkippedHasNoAnswers(ts: seq<SolverOutcome>)
    ensures (forall j :: 0 <= j < |ts| ==> ts[j].Skipped?) ==> Answers(ts) == []
    ensures WellFormedTrace(ts) && Answers(ts) == [] ==> forall j :: 0 <= j < |ts| ==> !ts[j].Answered?
  {
    if ts != [] {
      var rest := ts[1..];
      assert WellFormedTrace(ts) ==> WellFormedTrace(rest) by {
        forall j | 0 <= j < |rest| ensures rest[j] == ts[j + 1] { }
      }
      AllSkippedHasNoAnswers(rest);
      forall j | 0 <= j < |rest| ensures rest[j] == ts[j + 1] { }
    }
  }

  /**
   * Without an abort, `FirstFound` succeeds exactly when `All` does, and its answer is the
   * first part of what `All` returns.
   */
  lemma {:induction false} FirstFoundLeadsAll(ts: seq<SolverOutcome>)
    requires WellFormedTrace(ts) && forall j :: 0 <= j < |ts| ==> !ts[j].Aborted?
    ensures FirstHit(ts).Ok? <==> AllResult(ts, []).Ok?
    ensures FirstHit(ts).Ok? ==> FirstHit(ts).value <= AllResult(ts, []).value
  {
    NothingFoundIffAllSkipped(ts);
    if ts != [] {
      var rest := ts[1..];
      assert WellFormedTrace(rest) && forall j :: 0 <= j < |rest| ==> !rest[j].Aborted? by {
        forall j | 0 <= j < |rest| ensures rest[j] == ts[j + 1] { }
      }
      FirstFoundLeadsAll(rest);
      AnswersCons(ts[0], rest);
      assert ts == [ts[0]] + rest;
      assert !ts[|ts| - 1].Aborted?;
      if rest != [] {
        assert !rest[|rest| - 1].Aborted?;
      }
    }
  }

  /** Every solver before position `j` of the trace was skipped. */
  predicate SkippedBefore(ts: seq<SolverOutcome>, j: nat)
    requires j <= |ts|
  {
    forall k :: 0 <= k < j ==> ts[k].Skipped?
  }

  /**
   * The answer `FirstFound` returns is that of the first solver that did not skip, and it
   * is an answer, not an abort, exactly when such a solver answered.
   */
  lemma {:induction false} FirstHitIsFirstAnswer(ts: seq<SolverOutcome>)
    ensures FirstHit(ts).Ok? <==> exists j :: 0 <= j < |ts| && ts[j].Answered? && SkippedBefore(ts, j)
    ensures forall j :: 0 <= j < |ts| && ts[j].Answered? && SkippedBefore(ts, j) ==> FirstHit(ts) == Ok(ts[j].addrs)
  {
    if ts != [] {
      var rest := ts[1..];
      FirstHitIsFirstAnswer(rest);
      forall j | 0 <= j < |rest| ensures rest[j] == ts[j + 1] { }
      if ts[0].Skipped? {
        if FirstHit(ts).Ok? {
          var j :| 0 <= j < |rest| && rest[j].Answered? && SkippedBefore(rest, j);
          assert ts[j + 1].Answered? && SkippedBefore(ts, j + 1);
        }
        forall j | 0 <= j < |ts| && ts[j].Answered? && SkippedBefore(ts, j)
          ensures FirstHit(ts) == Ok(ts[j].addrs)
        {
          assert j > 0;
          assert SkippedBefore(rest, j - 1);
        }
      } else if ts[0].Answered? {
        assert SkippedBefore(ts, 0);
      }
    }
  }

  /** `FirstFound` stops at the first answer: the registry is left as that solver's turn left it. */
  lemma FirstFoundStopsAtAnswer(refs: seq<Crd.SolverKind>, i: nat, kind: AddressKind, env: Env, cells: Cells, collected: seq<IpAddr>)
    requires i < |refs| && Consistent(cells)
    requires ListTurn(cells, (refs[i], kind), env).0.Answered?
    ensures ListFrom(refs, i, kind, FirstFound, env, cells, collected) ==
              Outcome(Ok(ListTurn(cells, (refs[i], kind), env).0.addrs), ListTurn(cells, (refs[i], kind), env).1)
  {
  }

  datatype SolverList = SolverList(solverRefs: seq<Crd.SolverKind>, queryMode: QueryMode) {
    /**
     * `SolverList::query`: the references in order, each looked up, locked and queried;
     * `FirstFound` returns the first non-empty answer, `All` gathers every one.
     */
    method Query(kind: AddressKind, env: Env, cells: Cells) returns (r: Result<seq<IpAddr>, IpSourceError>, out: Cells)
      requires Consistent(cells)
      ensures Outcome(r, out) == ListAnswer(this, kind, env, cells)
    {
      if solverRefs == [] {
        return Err(Solver(Panicked)), cells;
      }
      ghost var whole := ListFrom(solverRefs, 0, kind, queryMode, env, cells, []);
      var collected: seq<IpAddr> := [];
      out := cells;
      var i := 0;
      while i < |solverRefs|
        invariant 0 <= i <= |solverRefs| && Consistent(out)
        invariant whole == ListFrom(solverRefs, i, kind, queryMode, env, out, collected)
      {
        var key := (solverRefs[i], kind);
        ghost var before := out;
        if key !in out {
          return Err(Solver(NotFound(key.0, key.1))), out;
        }
        if key in env.contended {
          return Err(Solver(LockTimeout)), out;
        }
        var res;
        res, out := ExtSolvers.GetAddresses(out, key, env);
        assert ListTurn(before, key, env).1 == out;
        if res.Ok? {
          if res.value != [] {
            if queryMode.FirstFound? {
              return Ok(res.value), out;
            }
            collected := collected + res.value;
          }
        } else if res.error == Panicked {
          return Err(Solver(Panicked)), out;
        }
        i := i + 1;
      }
      if queryMode.All? && collected != [] {
        r := Ok(collected);
      } else {
        r := Err(Solver(NoAddresses));
      }
    }
  }

  /** The whole list query; an empty list fails the source's assertion, which panics. */
  function ListAnswer(l: SolverList, kind: AddressKind, env: Env, cells: Cells): (o: Outcome<seq<IpAddr>>)
    requires Consistent(cells)
    ensures Consistent(o.cells) && o.cells.Keys == cells.Keys
    ensures l.solverRefs == [] ==> o == Outcome(Err(Solver(Panicked)), cells)
  {
    if l.solverRefs == [] then Outcome(Err(Solver(Panicked)), cells)
    else ListFrom(l.solverRefs, 0, kind, l.queryMode, env, cells, [])
  }

  /** `TryFrom<IpSolversConfig>`: an empty solver list is malformed; the mode defaults to `FirstFound`. */
  function SolverListFrom(c: Crd.IpSolversConfig): (r: Result<SolverList, IpSourceError>)
    ensures r.Err? <==> c.solvers == []
    ensures r.Err? ==> r.error == Malformed(EmptySolverList)
    ensures r.Ok? ==> r.value.solverRefs == c.solvers
    ensures r.Ok? ==> r.value.queryMode == QueryModeFrom(c.queryMode.GetOr(Crd.DEFAULT_QUERY_MODE))
    ensures r.Ok? && c.queryMode.None? ==> r.value.queryMode == FirstFound
  {
    if c.solvers == [] then Err(Malformed(EmptySolverList))
    else Ok(SolverList(c.solvers, QueryModeFrom(c.queryMode.GetOr(Crd.DEFAULT_QUERY_MODE))))
  }

  datatype ExternalIpSourceKind = Cluster(name: string)

  /** The block of one family: present exactly when it was configured with a valid list. */
  function ListOf(block: Option<Crd.IpSolversConfig>): (r: Option<SolverList>)
    ensures r.Some? <==> block.Some? && block.value.solvers != []
    ensures r.Some? ==> SolverListFrom(block.value) == Ok(r.value)
  {
    match block
    case None => None
    case Some(c) =>
      match SolverListFrom(c)
      case Ok(l) => Some(l)
      case Err(_) => None
  }

  /** `TryFrom<ClusterExternalIPSource>`: at least one block must be present. */
  function SourceFrom(c: Crd.ClusterExternalIPSource): (r: Result<ExternalIpSource, IpSourceError>)
    ensures r.Err? <==> c.spec.ipv4.None? && c.spec.ipv6.None?
    ensures r.Err? ==> r.error == Malformed(NoSourceBlock)
    ensures r.Ok? ==> r.value.kind == Cluster(c.metadata.name.GetOr(""))
    ensures r.Ok? ==> r.value.v4 == ListOf(c.spec.ipv4) && r.value.v6 == ListOf(c.spec.ipv6)
  {
    if c.spec.ipv4.None? && c.spec.ipv6.None? then Err(Malformed(NoSourceBlock))
    else Ok(ExternalIpSource(Cluster(c.metadata.name.GetOr("")), ListOf(c.spec.ipv4), ListOf(c.spec.ipv6)))
  }

  /**
   * A block with an empty solver list does not fail the source: it is dropped. A source
   * whose every block is empty therefore converts, and has nothing to query.
   */
  lemma InvalidBlocksAreDropped(c: Crd.ClusterExternalIPSource)
    requires c.spec.ipv4.Some? || c.spec.ipv6.Some?
    requires c.spec.ipv4.Some? ==> c.spec.ipv4.value.solvers == []
    requires c.spec.ipv6.Some? ==> c.spec.ipv6.value.solvers == []
    ensures SourceFrom(c).Ok? && SourceFrom(c).value.v4.None? && SourceFrom(c).value.v6.None?
  {
  }

  /** The lists of a converted source are never empty, so its query never trips the assertion. */
  lemma ConvertedListsAreNonEmpty(c: Crd.ClusterExternalIPSource)
    requires SourceFrom(c).Ok?
    ensures SourceFrom(c).value.v4.Some? ==> SourceFrom(c).value.v4.value.solverRefs != []
    ensures SourceFrom(c).value.v6.Some? ==> SourceFrom(c).value.v6.value.solverRefs != []
  {
  }

  /** `ExternalIpSource::query`: the IPv4 list, then the IPv6 list; a failure of the first ends the query. */
  function SourceAnswer(s: ExternalIpSource, env: Env, cells: Cells): (o: Outcome<seq<IpAddr>>)
    requires Consistent(cells)
    ensures Consistent(o.cells) && o.cells.Keys == cells.Keys
  {
    var o4 := if s.v4.Some? then ListAnswer(s.v4.value, IPv4, env, cells) else Outcome(Ok([]), cells);
    if o4.result.Err? then o4
    else
      var o6 := if s.v6.Some? then ListAnswer(s.v6.value, IPv6, env, o4.cells) else Outcome(Ok([]), o4.cells);
      if o6.result.Err? then o6
      else Outcome(Ok(o4.result.value + o6.result.value), o6.cells)
  }

  datatype ExternalIpSource = ExternalIpSource(kind: ExternalIpSourceKind, v4: Option<SolverList>, v6: Option<SolverList>) {
    /** `ExternalIpSource::query`, extending one address list by each family's answer. */
    method Query(env: Env, cells: Cells) returns (r: Result<seq<IpAddr>, IpSourceError>, out: Cells)
      requires Consistent(cells)
      ensures Outcome(r, out) == SourceAnswer(this, env, cells)
    {
      var addrs: seq<IpAddr> := [];
      out := cells;
      if v4.Some? {
        var res;
        res, out := v4.value.Query(IPv4, env, out);
        if res.Err? {
          return res, out;
        }
        addrs := addrs + res.value;
      }
      assert addrs == (if v4.Some? then ListAnswer(v4.value, IPv4, env, cells).result.value else []);
      if v6.Some? {
        var res;
        res, out := v6.value.Query(IPv6, env, out);
        if res.Err? {
          return res, out;
        }
        addrs := addrs + res.value;
      }
      assert v6.None? ==> addrs + [] == addrs;
      r := Ok(addrs);
    }
  }
}
