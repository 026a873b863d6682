/** prune_mustgather.go: the whole command, from reading a must-gather to writing the pruned one. */
module PruneMustGather {
  import opened Kube
  import opened Packing
  import opened MustGatherDir
  import opened Prune
  import Paths

  datatype PruneResult =
    | NotRead(errs: seq<PruneError>)
    | SeveralVersions(kinds: seq<GK>)
    | NoTarget
    | Written(failures: nat)

  /** A packed list always has a filename, so writing it is never refused. */
  lemma FilenameNotEmpty(k: Key, resource: string)
    ensures Filename(k, resource) != ""
  {
    var elems := [Scope(k.namespace), k.namespace, GroupDirectory(k.gk.group), resource + ".yaml"];
    assert Paths.NonEmpty(elems) != [];
  }

  lemma PackedFilenames(rs: seq<ObjectResource>, out: seq<PackedResource>)
    requires IsPacking(rs, out)
    ensures forall r: PackedResource :: r in out ==> r.filename != ""
  {
    hide Filename;
    var ks: seq<Key> :| PacksInOrder(rs, out, ks);
    forall r: PackedResource | r in out ensures r.filename != "" {
      var i :| 0 <= i < |out| && out[i] == r;
      TypeKnown(rs, ks[i].gk);
      FilenameNotEmpty(ks[i], TypeOf(rs, ks[i].gk).value.resource);
    }
  }

  /** Nothing is written unless every read and every path succeeded, every selected kind has one version, and the target
      could be created; then a packing of the selection is written as far as files can be, and no write is refused. */
  method WriteRequiredInputResourcesFromMustGather(
    rl: ResourceList, c: Client, eval: PathEval, target: MustGatherDirectory, mkdirOk: bool, writes: string -> Write)
    returns (r: PruneResult, ghost out: seq<PackedResource>)
    modifies target
    ensures r.NotRead? <==> !Answerable(c, eval, rl)
    ensures r.NotRead? ==> r.errs == Errors(c, eval, rl)
    ensures r.SeveralVersions? <==> Answerable(c, eval, rl) && !OneVersionPerKind(Selection(c, eval, rl))
    ensures r.NoTarget? <==> Answerable(c, eval, rl) && OneVersionPerKind(Selection(c, eval, rl)) && !mkdirOk
    ensures !r.Written? ==> target.files == old(target.files)
    ensures r.Written? ==>
              && IsPacking(Selection(c, eval, rl), out)
              && target.files == AfterWrites(old(target.files), out, writes)
              && (r.failures == 0 <==> forall p :: p in out ==> writes(PathOfPacked(p)).Complete?)
              && (r.failures == 0 ==> target.files == WriteAll(old(target.files), out))
  {
    hide Selection, Errors, Answerable, Untroubled, IsPacking;
    out := [];
    var selected, errs := GetRequiredInputResourcesForResourceList(rl, c, eval);
    NoErrorsExactly(c, eval, rl);
    if |errs| > 0 {
      return NotRead(errs), out;
    }
    var packed := UnstructuredToMustGatherFormat(selected);
    if packed.MultipleVersions? {
      return SeveralVersions(packed.kinds), out;
    }
    if !mkdirOk {
      return NoTarget, out;
    }
    out := packed.out;
    PackedFilenames(selected, packed.out);
    var failures := target.WriteResources(packed.out, writes);
    return Written(failures), out;
  }
}
