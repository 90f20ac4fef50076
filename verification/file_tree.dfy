/** The directory walk shared by the folder-details scan (service/scanner_service.go) and the
    migration worker's file listing (worker/migration_worker.go). A walk runs over an immutable
    tree of nodes; the order of a directory's children is the order the listing returned them in.
    Both walks ignore access errors, prune system directories (`@…`) and, unless asked to keep it,
    the recycle bin (`#recycle`), and count a file only when its metadata can be read. */
module FileTree {
  import opened Wrappers
  import opened Text
  import opened Seqs

  /** A node as the walk sees it. `size` is None when reading the file's metadata fails, and
      `modified` is None when reading the directory's metadata fails. `readable` is false when
      listing the directory reports an error; `children` are the entries the listing returned
      (all of them, or those read before the error). */
  datatype FsNode =
    | File(name: string, size: Option<nat>)
    | Dir(name: string, modified: Option<int>, readable: bool, children: seq<FsNode>)

  /** The pruning rule both walks apply to every directory, the walk's root included. */
  predicate SkipsDir(name: string, includeRecycle: bool) {
    StartsWith(name, "@") || (!includeRecycle && name == "#recycle")
  }

  /** A file the walk keeps: its path relative to the walk's root, as segments, and its size. */
  datatype FileEntry = FileEntry(rel: seq<string>, size: nat)

  /** The files of `n` the walk keeps, in walk order, where `path` is `n`'s own relative path.
      Every kept file lies under `path`, and no directory strictly between `path` and the file is
      pruned; a node yields files below its own path only when it is a directory it does not
      prune. */
  function Collect(n: FsNode, path: seq<string>, includeRecycle: bool): (r: seq<FileEntry>)
    ensures forall e :: e in r ==> |e.rel| >= |path| && e.rel[..|path|] == path
    ensures forall e :: e in r && |e.rel| > |path| ==> n.Dir? && !SkipsDir(n.name, includeRecycle)
    ensures forall e, k :: e in r && |path| <= k < |e.rel| - 1 ==> !SkipsDir(e.rel[k], includeRecycle)
    decreases n, 1
  {
    match n
    case File(_, size) => if size.Some? then [FileEntry(path, size.value)] else []
    case Dir(name, _, _, children) =>
      if SkipsDir(name, includeRecycle) then [] else CollectAll(children, path, includeRecycle)
  }

  /** The files kept under the children `ns` of a directory whose relative path is `parent`. */
  function CollectAll(ns: seq<FsNode>, parent: seq<string>, includeRecycle: bool): (r: seq<FileEntry>)
    ensures forall e :: e in r ==> |e.rel| > |parent| && e.rel[..|parent|] == parent
    ensures forall e, k :: e in r && |parent| <= k < |e.rel| - 1 ==> !SkipsDir(e.rel[k], includeRecycle)
    decreases ns, 0
  {
    if |ns| == 0 then []
    else
      var head := Collect(ns[0], parent + [ns[0].name], includeRecycle);
      var tail := CollectAll(ns[1..], parent, includeRecycle);
      forall e | e in head
        ensures |e.rel| > |parent| && e.rel[..|parent|] == parent && e.rel[|parent|] == ns[0].name
      {
        assert e.rel[..|parent| + 1] == parent + [ns[0].name];
        assert e.rel[..|parent|] == (parent + [ns[0].name])[..|parent|];
      }
      head + tail
  }

  /** The walk from a root: a root that cannot be read yields nothing, and the root's own
      relative path is empty. */
  function WalkRoot(root: Option<FsNode>, includeRecycle: bool): (r: seq<FileEntry>)
    ensures root.None? ==> r == []
    ensures root.Some? && root.value.Dir? && SkipsDir(root.value.name, includeRecycle) ==> r == []
    ensures forall e, k :: e in r && 0 <= k < |e.rel| - 1 ==> !SkipsDir(e.rel[k], includeRecycle)
  {
    match root
    case None => []
    case Some(n) => Collect(n, [], includeRecycle)
  }

  function Sizes(es: seq<FileEntry>): (r: seq<nat>)
    ensures |r| == |es| && forall i :: 0 <= i < |es| ==> r[i] == es[i].size
  {
    if |es| == 0 then [] else [es[0].size] + Sizes(es[1..])
  }

  /** Total size of a list of kept files. */
  function SumSizes(es: seq<FileEntry>): nat {
    Sum(Sizes(es))
  }

  lemma SumSizesConcat(a: seq<FileEntry>, b: seq<FileEntry>)
    ensures SumSizes(a + b) == SumSizes(a) + SumSizes(b)
  {
    var l, r := Sizes(a + b), Sizes(a) + Sizes(b);
    forall i | 0 <= i < |l|
      ensures l[i] == r[i]
    {
      if i < |a| {
        assert (a + b)[i] == a[i];
      } else {
        assert (a + b)[i] == b[i - |a|];
      }
    }
    assert l == r;
    SumConcat(Sizes(a), Sizes(b));
  }

  /** The folder-details walk's accumulators (file count, total size), computed as the scanner
      does: one visit per node, adding each readable file. */
  function Details(n: FsNode, includeRecycle: bool): (r: (nat, nat))
    ensures r.0 == 0 ==> r.1 == 0
    ensures n.Dir? && SkipsDir(n.name, includeRecycle) ==> r == (0, 0)
    ensures n.File? ==> r.0 <= 1
    decreases n, 1
  {
    match n
    case File(_, size) => if size.Some? then (1, size.value) else (0, 0)
    case Dir(name, _, _, children) =>
      if SkipsDir(name, includeRecycle) then (0, 0) else DetailsAll(children, includeRecycle)
  }

  /** The accumulators over a list of siblings: no size without a counted file. */
  function DetailsAll(ns: seq<FsNode>, includeRecycle: bool): (r: (nat, nat))
    ensures r.0 == 0 ==> r.1 == 0
    ensures |ns| == 0 ==> r == (0, 0)
    decreases ns, 0
  {
    if |ns| == 0 then (0, 0)
    else
      var h := Details(ns[0], includeRecycle);
      var t := DetailsAll(ns[1..], includeRecycle);
      (h.0 + t.0, h.1 + t.1)
  }

  /** The two walks agree: the scanner's count and total size of a folder are exactly the number
      and the summed sizes of the files the worker would list for it, whatever the starting path. */
  lemma {:induction false} DetailsAgree(n: FsNode, path: seq<string>, includeRecycle: bool)
    ensures Details(n, includeRecycle) ==
            (|Collect(n, path, includeRecycle)|, SumSizes(Collect(n, path, includeRecycle)))
    decreases n, 1
  {
    match n
    case File(_, size) =>
      if size.Some? {
        var e := FileEntry(path, size.value);
        assert Collect(n, path, includeRecycle) == [e];
        assert Sizes([e]) == [size.value];
        assert Sum([size.value]) == size.value + Sum([]);
      }
    case Dir(name, _, _, children) =>
      if !SkipsDir(name, includeRecycle) {
        DetailsAllAgree(children, path, includeRecycle);
      }
  }

  lemma {:induction false} DetailsAllAgree(ns: seq<FsNode>, parent: seq<string>, includeRecycle: bool)
    ensures DetailsAll(ns, includeRecycle) ==
            (|CollectAll(ns, parent, includeRecycle)|, SumSizes(CollectAll(ns, parent, includeRecycle)))
    decreases ns, 0
  {
    if |ns| > 0 {
      var head := Collect(ns[0], parent + [ns[0].name], includeRecycle);
      var tail := CollectAll(ns[1..], parent, includeRecycle);
      DetailsAgree(ns[0], parent + [ns[0].name], includeRecycle);
      DetailsAllAgree(ns[1..], parent, includeRecycle);
      SumSizesConcat(head, tail);
    }
  }
}
