// pkg/config/validation.go (validatePatches): each patch uses one mechanism, and no path is patched twice.
module Patches {
  datatype Patch = Patch(
    path: string, expression: string, reverseExpression: string, hasLabels: bool, hasReference: bool)

  predicate UsesExpression(p: Patch) {
    p.expression != "" || p.reverseExpression != ""
  }

  // Exactly one of expression, labels and reference.
  predicate OneMechanism(p: Patch) {
    || (UsesExpression(p) && !p.hasLabels && !p.hasReference)
    || (!UsesExpression(p) && p.hasLabels && !p.hasReference)
    || (!UsesExpression(p) && !p.hasLabels && p.hasReference)
  }

  predicate ValidPatches(patches: seq<Patch>) {
    && (forall i :: 0 <= i < |patches| ==> OneMechanism(patches[i]))
    && (forall i, j :: 0 <= i < j < |patches| ==> patches[i].path != patches[j].path)
  }

  predicate AllValidPatches(lists: seq<seq<Patch>>) {
    forall l :: 0 <= l < |lists| ==> ValidPatches(lists[l])
  }

  /** Accepts exactly when in each list every patch uses one mechanism and the paths are pairwise distinct. */
  method ValidatePatches(lists: seq<seq<Patch>>) returns (ok: bool)
    ensures ok <==> AllValidPatches(lists)
  {
    for l := 0 to |lists|
      invariant forall k :: 0 <= k < l ==> ValidPatches(lists[k])
    {
      ok := ValidatePatchList(lists[l]);
      if !ok {
        return;
      }
    }
    ok := true;
  }

  // The inner loop, with its map from paths to indices.
  method ValidatePatchList(patches: seq<Patch>) returns (ok: bool)
    ensures ok <==> ValidPatches(patches)
  {
    var usedPaths: map<string, nat> := map[];
    for idx := 0 to |patches|
      invariant forall i :: 0 <= i < idx ==> OneMechanism(patches[i]) && patches[i].path in usedPaths
      invariant forall path :: path in usedPaths ==> usedPaths[path] < idx && patches[usedPaths[path]].path == path
      invariant forall i, j :: 0 <= i < j < idx ==> patches[i].path != patches[j].path
    {
      var patch, used := patches[idx], 0;
      if patch.expression != "" || patch.reverseExpression != "" {
        used := used + 1;
      }
      if patch.hasLabels {
        used := used + 1;
      }
      if patch.hasReference {
        used := used + 1;
      }
      if used > 1 {
        return false;
      } else if used == 0 {
        return false;
      }
      if patch.path in usedPaths {
        return false;
      }
      usedPaths := usedPaths[patch.path := idx];
    }
    ok := true;
  }
}
