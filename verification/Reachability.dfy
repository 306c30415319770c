/** The manifest graph that garbage collection walks and that push validation
    checks one level of (gc.rs:150-198, routes.rs:789-817). */
module Reachability {

  import opened Base
  import opened Digests

  /** What either code path looks at in a manifest: the `digest` strings of
      `config`, of the `layers` array and of the `manifests` array. Members that
      are absent or are not strings do not appear. */
  datatype ManifestView = ManifestView(config: Option<string>, layers: seq<string>, manifests: seq<string>)

  /** JSON parsing, one opaque function for both code paths; `None` for a body
      that is not JSON. */
  type Viewer = Bytes -> Option<ManifestView>

  /** The readable blobs of one repository. */
  type Blobs = map<Digest, Bytes>

  function Parsed(refs: seq<string>): (ds: seq<Digest>)
    ensures forall d :: d in ds <==> exists i :: 0 <= i < |refs| && Parse(refs[i]) == Some(d)
  {
    if refs == [] then []
    else
      var rest := Parsed(refs[1..]);
      assert forall i :: 1 <= i < |refs| ==> refs[i] == refs[1..][i - 1];
      match Parse(refs[0])
      case None => rest
      case Some(d) => [d] + rest
  }

  /** The digest strings a pushed manifest must find locally: config and layers. */
  function Required(v: ManifestView): seq<string> {
    (if v.config.Some? then [v.config.value] else []) + v.layers
  }

  /** The digests garbage collection pushes for a blob, in order. */
  function Links(view: Viewer, body: Bytes): seq<Digest> {
    match view(body)
    case None => []
    case Some(v) => Parsed(Required(v)) + Parsed(v.manifests)
  }

  function Children(view: Viewer, blobs: Blobs, d: Digest): seq<Digest> {
    if d in blobs then Links(view, blobs[d]) else []
  }

  ghost predicate Closed(view: Viewer, blobs: Blobs, s: set<Digest>) {
    forall d, e :: d in s && e in Children(view, blobs, d) ==> e in s
  }

  /** `s` is the least set that contains the roots and is closed under links. */
  ghost predicate IsLeast(view: Viewer, blobs: Blobs, roots: set<Digest>, s: set<Digest>) {
    && roots <= s
    && Closed(view, blobs, s)
    && forall t: set<Digest> :: roots <= t && Closed(view, blobs, t) ==> s <= t
  }

  /** Every digest that can ever be met: the roots and all link targets. */
  ghost function Universe(view: Viewer, blobs: Blobs, roots: set<Digest>): set<Digest> {
    roots + set d, e | d in blobs && e in Children(view, blobs, d) :: e
  }

  /** The reachable digests: those in every closed set that contains the roots. */
  ghost function Reachable(view: Viewer, blobs: Blobs, roots: set<Digest>): (s: set<Digest>)
    ensures IsLeast(view, blobs, roots, s)
  {
    var s := set d | d in Universe(view, blobs, roots)
                     && forall t: set<Digest> :: roots <= t && Closed(view, blobs, t) ==> d in t;
    assert Closed(view, blobs, Universe(view, blobs, roots));
    s
  }

  lemma LeastIsUnique(view: Viewer, blobs: Blobs, roots: set<Digest>, s: set<Digest>, t: set<Digest>)
    requires IsLeast(view, blobs, roots, s) && IsLeast(view, blobs, roots, t)
    ensures s == t
  {
  }

  /** Blobs outside the reachable set do not influence it: a disk that agrees on
      the reachable blobs, whatever else it holds or lacks, has the same one. */
  lemma ReachableDependsOnReachable(view: Viewer, blobs: Blobs, after: Blobs, roots: set<Digest>)
    requires forall d :: d in Reachable(view, blobs, roots) ==>
               (d in blobs <==> d in after) && (d in blobs ==> blobs[d] == after[d])
    ensures Reachable(view, after, roots) == Reachable(view, blobs, roots)
  {
    var s, t := Reachable(view, blobs, roots), Reachable(view, after, roots);
    assert Closed(view, after, s) by {
      forall d, e | d in s && e in Children(view, after, d) ensures e in s {
        assert e in Children(view, blobs, d);
      }
    }
    assert t <= s;
    assert Closed(view, blobs, t) by {
      forall d, e | d in t && e in Children(view, blobs, d) ensures e in t {
        assert e in Children(view, after, d);
      }
    }
  }

  // ----- in the manifest's own terms -----

  /** The manifest stored under `d` names `e`: as its config, as a layer or as a
      child manifest. */
  ghost predicate Names(view: Viewer, blobs: Blobs, d: Digest, e: Digest) {
    d in blobs && view(blobs[d]).Some? &&
    var v := view(blobs[d]).value;
    exists ref :: (v.config == Some(ref) || ref in v.layers || ref in v.manifests) && Parse(ref) == Some(e)
  }

  /** The walk follows exactly what manifests name: config, layers and children. */
  lemma ChildrenAreNamed(view: Viewer, blobs: Blobs, d: Digest, e: Digest)
    ensures e in Children(view, blobs, d) <==> Names(view, blobs, d, e)
  {
    if d in blobs && view(blobs[d]).Some? {
      var v := view(blobs[d]).value;
      var required := Required(v);
      assert forall ref :: ref in required <==> v.config == Some(ref) || ref in v.layers;
      assert e in Parsed(required) <==> exists ref :: ref in required && Parse(ref) == Some(e);
      assert e in Parsed(v.manifests) <==> exists ref :: ref in v.manifests && Parse(ref) == Some(e);
    }
  }

  /** Each digest on the path names the next one. */
  ghost predicate IsPath(view: Viewer, blobs: Blobs, path: seq<Digest>) {
    path != [] && forall i :: 0 <= i < |path| - 1 ==> Names(view, blobs, path[i], path[i + 1])
  }

  /** A path from one of the roots to `d`. */
  ghost predicate Leads(view: Viewer, blobs: Blobs, roots: set<Digest>, path: seq<Digest>, d: Digest) {
    IsPath(view, blobs, path) && path[0] in roots && path[|path| - 1] == d
  }

  ghost predicate HasPath(view: Viewer, blobs: Blobs, roots: set<Digest>, d: Digest) {
    exists path :: Leads(view, blobs, roots, path, d)
  }

  lemma {:induction false} PathStays(view: Viewer, blobs: Blobs, roots: set<Digest>, path: seq<Digest>, n: nat)
    requires IsPath(view, blobs, path) && path[0] in roots && n < |path|
    ensures path[n] in Reachable(view, blobs, roots)
    decreases n
  {
    if n > 0 {
      PathStays(view, blobs, roots, path, n - 1);
      assert Names(view, blobs, path[n - 1], path[n - 1 + 1]);
      ChildrenAreNamed(view, blobs, path[n - 1], path[n]);
    }
  }

  lemma PathGrows(view: Viewer, blobs: Blobs, roots: set<Digest>, path: seq<Digest>, d: Digest, e: Digest)
    requires Leads(view, blobs, roots, path, d) && Names(view, blobs, d, e)
    ensures HasPath(view, blobs, roots, e)
  {
    var longer := path + [e];
    forall i | 0 <= i < |longer| - 1 ensures Names(view, blobs, longer[i], longer[i + 1]) {
      if i < |path| - 1 { assert Names(view, blobs, path[i], path[i + 1]); }
    }
    assert Leads(view, blobs, roots, longer, e);
  }

  /** What is reachable is exactly what a path of config, layer and manifest links
      leads to from a root. */
  lemma ReachableIffPath(view: Viewer, blobs: Blobs, roots: set<Digest>, d: Digest)
    ensures d in Reachable(view, blobs, roots) <==> HasPath(view, blobs, roots, d)
  {
    var all := Reachable(view, blobs, roots);
    var led := set e | e in all && HasPath(view, blobs, roots, e);
    forall r | r in roots ensures r in led {
      assert Leads(view, blobs, roots, [r], r);
    }
    forall a, b | a in led && b in Children(view, blobs, a) ensures b in led {
      ChildrenAreNamed(view, blobs, a, b);
      var path :| Leads(view, blobs, roots, path, a);
      PathGrows(view, blobs, roots, path, a, b);
    }
    assert roots <= led && Closed(view, blobs, led);
    if HasPath(view, blobs, roots, d) {
      var path :| Leads(view, blobs, roots, path, d);
      PathStays(view, blobs, roots, path, |path| - 1);
    }
  }

  /** Every edge that push validation insists on is an edge of the graph. */
  lemma RequiredAreReachable(view: Viewer, blobs: Blobs, roots: set<Digest>, m: Digest, ref: string)
    requires m in Reachable(view, blobs, roots) && m in blobs && view(blobs[m]).Some?
    requires ref in Required(view(blobs[m]).value) && Parse(ref).Some?
    ensures Parse(ref).value in Reachable(view, blobs, roots)
  {
    var required := Required(view(blobs[m]).value);
    var i :| 0 <= i < |required| && required[i] == ref;
    assert Parse(ref).value in Parsed(required);
    assert Parse(ref).value in Children(view, blobs, m);
  }

}
