/**
 * Building a solver from its configuration (`TryFrom<SolverKind> for Box<dyn Solver>`)
 * and querying whichever solver a registry cell holds.
 */
module ExtSolvers {
  import opened Wrappers
  import opened Ip
  import opened Crd
  import opened ExtErrors
  import opened MergeMasks
  import opened ExtSolverCells
  import ExtMerge

  /** Every configuration but an invalid merge yields a solver; a merge's error is passed on as is. */
  function SolverFrom(k: SolverKind): (r: Result<SolverState, IpSourceError>)
    ensures r.Ok? ==> ConfigOf(r.value) == k
    ensures !k.Merge? ==> r.Ok?
    ensures k.Merge? ==> (r.Ok? <==> ExtMerge.New(k.partialSolvers).Ok?)
    ensures k.Merge? && r.Err? ==> r.error == ExtMerge.New(k.partialSolvers).error
    ensures k.IpAPI? ==> r == Ok(IpApiCell(k.provider, None, 0))
  {
    match k
    case IpAPI(provider) => Ok(IpApiCell(provider, None, 0))
    case DnsHostname(host) => Ok(DnsHostnameCell(host))
    case LoadBalancerIngress => Ok(LoadBalancerIngressCell)
    case Static(addresses) => Ok(StaticCell(StaticSolver.Static(addresses)))
    case Merge(pss) =>
      match ExtMerge.New(pss)
      case Ok(m) => Ok(MergeCell(m.partialSolvers))
      case Err(e) => Err(e)
  }

  /** A registry whose every cell was built by `SolverFrom`: consistent, and every merge accepted. */
  predicate Built(cells: Cells) {
    Consistent(cells) &&
    forall k :: k in cells && k.0.Merge? ==> ValidMaskSum(MaskSum(Masks(k.0.partialSolvers)))
  }

  /** Adding the solver built from a configuration keeps a registry built. */
  lemma AddBuiltSolver(cells: Cells, k: SolverKind, kind: AddressKind)
    requires Built(cells) && SolverFrom(k).Ok?
    ensures Built(cells[(k, kind) := SolverFrom(k).value])
  {
  }

  /** Queries keep the keys and the consistency of a registry, and with them that it is built. */
  lemma QueriesKeepBuilt(before: Cells, after: Cells)
    requires Built(before) && Consistent(after) && after.Keys == before.Keys
    ensures Built(after)
  {
  }

  /** `solver.get_addresses(kind, svc, solvers)` for the solver in the cell under `key`, its lock held. */
  function Dispatch(cells: Cells, key: RegistryKey, env: Env): (p: ExtMerge.Progress<seq<IpAddr>>)
    requires Consistent(cells) && key in cells
    ensures Consistent(p.cells) && p.cells.Keys == cells.Keys
    ensures cells[key].MergeCell? ==> p == ExtMerge.Query(ExtMerge.Merge.Merge(cells[key].partialSolvers), key.1, env, cells)
    ensures !cells[key].MergeCell? ==>
              var a := ResolveLeaf(cells[key], key.1, env);
              p.result == a.result && p.cells == cells[key := a.state]
  {
    match cells[key]
    case MergeCell(pss) => ExtMerge.Query(ExtMerge.Merge.Merge(pss), key.1, env, cells)
    case _ =>
      var a := ResolveLeaf(cells[key], key.1, env);
      UpdateKeepsConsistent(cells, key, a.state);
      ExtMerge.Progress(a.result, cells[key := a.state])
  }

  /**
   * In a built registry no query panics: not the leaf solvers, and not a merge, whose
   * accepted masks (with fewer than 2^96 parts) keep the merged value in range.
   */
  lemma DispatchNeverPanics(cells: Cells, key: RegistryKey, env: Env)
    requires Built(cells) && key in cells
    requires cells[key].MergeCell? ==> |cells[key].partialSolvers| < 0x1_0000_0000_0000_0000_0000_0000
    ensures Dispatch(cells, key, env).result != Err(Panicked)
  {
    if cells[key].MergeCell? {
      var pss := cells[key].partialSolvers;
      assert ConfigOf(cells[key]) == key.0;
      assert ExtMerge.New(pss) == Ok(ExtMerge.Merge.Merge(pss));
      ExtMerge.AcceptedMergeNeverPanics(pss, key.1, env, cells);
    }
  }

  /** The query of the solver in a cell: a merge runs its loop, every other solver answers at once. */
  method GetAddresses(cells: Cells, key: RegistryKey, env: Env) returns (r: Result<seq<IpAddr>, SolverError>, out: Cells)
    requires Consistent(cells) && key in cells
    ensures ExtMerge.Progress(r, out) == Dispatch(cells, key, env)
  {
    var st := cells[key];
    if st.MergeCell? {
      r, out := ExtMerge.GetAddresses(ExtMerge.Merge.Merge(st.partialSolvers), key.1, env, cells);
    } else {
      var a := ResolveLeaf(st, key.1, env);
      r, out := a.result, cells[key := a.state];
    }
  }
}
