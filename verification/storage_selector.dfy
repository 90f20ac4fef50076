/** The destination picker of the configuration step (webui/src/components/StorageSelector.tsx):
    sub-path validation and normalisation, the split between the displayed and the stored
    sub-path, automatic choice of a healthy storage target, and available space. */
module StorageSelector {
  import opened Wrappers
  import opened Text
  import opened Seqs
  import opened Types

  const DotDotMessage: string := "Path cannot contain .."
  const TooLongMessage: string := "Path must be less than 255 characters"
  const MaxPathLength: nat := 255

  /** Some position of `s` holds two consecutive dots. */
  predicate HasDotDot(s: string) {
    exists i :: 0 <= i < |s| - 1 && s[i] == '.' && s[i + 1] == '.'
  }

  /** The substring search used by the validator finds ".." exactly where two dots are adjacent. */
  lemma {:induction false} ContainsDotDot(s: string)
    ensures Contains(s, "..") <==> HasDotDot(s)
    decreases |s|
  {
    if |s| >= 2 {
      ContainsDotDot(s[1..]);
      assert StartsWith(s, "..") ==> HasDotDot(s) by {
        if StartsWith(s, "..") {
          assert s[..2][0] == s[0] && s[..2][1] == s[1];
        }
      }
      assert HasDotDot(s[1..]) ==> HasDotDot(s) by {
        if HasDotDot(s[1..]) {
          var i :| 0 <= i < |s[1..]| - 1 && s[1..][i] == '.' && s[1..][i + 1] == '.';
          assert s[i + 1] == '.' && s[i + 2] == '.';
        }
      }
      assert HasDotDot(s) ==> StartsWith(s, "..") || HasDotDot(s[1..]) by {
        if HasDotDot(s) {
          var i :| 0 <= i < |s| - 1 && s[i] == '.' && s[i + 1] == '.';
          if i == 0 {
            assert s[..2] == "..";
          } else {
            assert s[1..][i - 1] == '.' && s[1..][i] == '.';
          }
        }
      }
    } else if |s| == 1 {
      ContainsDotDot(s[1..]);
      assert !HasDotDot(s);
      assert !HasDotDot(s[1..]);
    } else {
      assert !HasDotDot(s);
    }
  }

  /** `validatePath`: the empty path is allowed; a path with ".." is refused before its length is
      looked at; more than 255 UTF-16 code units (JavaScript's `.length`) is refused, so exactly
      255 passes despite the message, and a character outside the Basic Multilingual Plane counts
      twice. */
  function ValidatePath(path: string): (err: Option<string>)
    ensures path == "" ==> err.None?
    ensures path != "" && HasDotDot(path) ==> err == Some(DotDotMessage)
    ensures path != "" && !HasDotDot(path) && Utf16Length(path) > MaxPathLength ==> err == Some(TooLongMessage)
    ensures err.None? <==> path == "" || (!HasDotDot(path) && Utf16Length(path) <= MaxPathLength)
  {
    ContainsDotDot(path);
    if path == "" then None
    else if Contains(path, "..") then Some(DotDotMessage)
    else if Utf16Length(path) > 255 then Some(TooLongMessage)
    else None
  }

  /** The length limit counts UTF-16 code units: 128 characters beyond the Basic Multilingual
      Plane are 256 units and are refused, while 255 ASCII characters pass. */
  lemma LengthCountsCodeUnits(wide: string, ascii: string)
    requires |wide| == 128 && forall i :: 0 <= i < |wide| ==> wide[i] == '\U{1F600}'
    requires |ascii| == 255 && IsAscii(ascii) && !HasDotDot(ascii)
    ensures ValidatePath(wide) == Some(TooLongMessage)
    ensures ValidatePath(ascii).None?
  {
    assert wide[0] == '\U{1F600}' && wide[1] == '\U{1F600}';
    assert !HasDotDot(wide);
    assert forall i :: 0 <= i < |wide| ==> wide[i] as int >= 0x1_0000;
    Utf16LengthWide(wide);
  }

  /** Every character outside the Basic Multilingual Plane is two code units. */
  lemma {:induction false} Utf16LengthWide(s: string)
    requires forall i :: 0 <= i < |s| ==> s[i] as int >= 0x1_0000
    ensures Utf16Length(s) == 2 * |s|
  {
    if |s| > 0 {
      Utf16LengthWide(s[1..]);
    }
  }

  /** The shape every stored sub-path has: empty, or a leading '/' and no trailing '/'. */
  predicate IsNormalPath(p: string) {
    p == "" || (p[0] == '/' && p[|p| - 1] != '/')
  }

  /** `normalizePath`: prefix '/' when missing, then strip every trailing '/'. */
  function NormalizePath(path: string): (r: string)
    ensures IsNormalPath(r)
    ensures path == "" ==> r == ""
    ensures |r| <= |path| + 1
    ensures path != "" && path[0] == '/' ==> |r| <= |path| && r == path[..|r|] && forall i :: |r| <= i < |path| ==> path[i] == '/'
    ensures path != "" && path[0] != '/' ==> 2 <= |r| <= |path| + 1 && r[0] == '/' && r[1..] == path[..|r| - 1] &&
                                              forall i :: |r| - 1 <= i < |path| ==> path[i] == '/'
  {
    if path == "" then ""
    else
      var withSlash := if StartsWith(path, "/") then path else "/" + path;
      assert withSlash[0] == '/';
      var r := TrimTrailing(withSlash, '/');
      assert path[0] != '/' ==> |r| >= 2 by {
        if path[0] != '/' {
          assert withSlash[1] == path[0];
        }
      }
      assert path[0] != '/' ==> r[1..] == path[..|r| - 1] by {
        if path[0] != '/' {
          assert forall k :: 1 <= k < |r| ==> r[k] == withSlash[k] == path[k - 1];
        }
      }
      assert path[0] != '/' ==> forall i :: |r| - 1 <= i < |path| ==> path[i] == '/' by {
        if path[0] != '/' {
          assert forall i :: |r| - 1 <= i < |path| ==> path[i] == withSlash[i + 1];
        }
      }
      r
  }

  /** A path is left unchanged by normalisation exactly when it is already in normal form. */
  lemma NormalizeFixpoints(p: string)
    ensures NormalizePath(p) == p <==> IsNormalPath(p)
  {
    if IsNormalPath(p) && p != "" {
      assert StartsWith(p, "/");
      assert TrimTrailing(p, '/') == p;
    }
  }

  /** Normalising twice is normalising once. */
  lemma NormalizeIdempotent(p: string)
    ensures NormalizePath(NormalizePath(p)) == NormalizePath(p)
  {
    NormalizeFixpoints(NormalizePath(p));
  }

  /** A path made only of slashes normalises to the empty path. */
  lemma NormalizeSlashes()
    ensures NormalizePath("//") == ""
  {
    assert TrimTrailing("//", '/') == TrimTrailing("/", '/');
  }

  /** Stripping trailing `c` from `a + b` leaves `a` alone when `b` opens with another character. */
  lemma {:induction false} TrimTrailingAfter(a: string, b: string, c: char)
    requires |b| > 0 && b[0] != c
    ensures TrimTrailing(a + b, c) == a + TrimTrailing(b, c)
    decreases |b|
  {
    var s := a + b;
    if b[|b| - 1] == c {
      assert |b| > 1;
      assert s[..|s| - 1] == a + b[..|b| - 1];
      TrimTrailingAfter(a, b[..|b| - 1], c);
    }
  }

  /** The outcome of one keystroke in the sub-path box. */
  datatype SubPathEdit = SubPathEdit(display: string, pathError: Option<string>, stored: string)

  /** `handleSubPathChange`: the box shows the input without one leading '/', the store gets the
      normalised path even when it is invalid, and the error is that of the normalised path. */
  function HandleSubPathChange(value: string): (e: SubPathEdit)
    ensures value != "" && value[0] == '/' ==> e.display == value[1..]
    ensures !(value != "" && value[0] == '/') ==> e.display == value
    ensures IsNormalPath(e.stored)
    ensures e.stored == NormalizePath(e.display)
    ensures e.pathError.None? <==> e.stored == "" || (!HasDotDot(e.stored) && Utf16Length(e.stored) <= MaxPathLength)
  {
    var display := DropLeading(value, '/');
    var stored := NormalizePath(display);
    SubPathEdit(display, ValidatePath(stored), stored)
  }

  /** What the box shows once it is re-synchronised from the stored path. */
  function DisplayFromStore(stored: string): string {
    DropLeading(stored, '/')
  }

  /** Storing a typed sub-path and reading it back into the box returns the typed text without its
      trailing slashes, whenever the typed text does not itself open with '/'. */
  lemma SubPathRoundTrip(value: string)
    requires var d := HandleSubPathChange(value).display; d == "" || d[0] != '/'
    ensures DisplayFromStore(HandleSubPathChange(value).stored) ==
            TrimTrailing(HandleSubPathChange(value).display, '/')
  {
    var d := HandleSubPathChange(value).display;
    if d != "" {
      assert !StartsWith(d, "/");
      TrimTrailingAfter("/", d, '/');
      var t := TrimTrailing(d, '/');
      assert d[0] != '/';
      assert |t| > 0;
      assert ("/" + t)[1..] == t;
    }
  }

  /** `isStorageHealthy`: only an explicit `health === true` counts. */
  predicate IsStorageHealthy(s: StorageDevice) {
    s.extensions.Some? && s.extensions.value.health == Some(true)
  }

  /** Entries of the storage list are selectable exactly when healthy. */
  function IsDisabled(s: StorageDevice): (disabled: bool)
    ensures disabled <==> !(s.extensions.Some? && s.extensions.value.health == Some(true))
  {
    !IsStorageHealthy(s)
  }

  /** JavaScript's `x || 0` on an optional number: absent and zero both give 0. */
  function OrZero(x: Option<int>): int {
    match x
    case Some(v) => if v == 0 then 0 else v
    case None => 0
  }

  /** `getAvailableSpace` before formatting: size minus used, each missing field counting 0. */
  function AvailableSpace(s: StorageDevice): (a: int)
    ensures s.extensions.None? ==> a == 0
    ensures s.extensions.Some? ==> a == s.extensions.value.size.GetOr(0) - s.extensions.value.used.GetOr(0)
  {
    match s.extensions
    case None => 0 - 0
    case Some(x) => OrZero(x.size) - OrZero(x.used)
  }

  /** The selection after a storage list arrives: kept when something is already chosen or the list
      is empty, otherwise the first healthy entry, or still nothing when none is healthy. */
  function AutoSelect(selected: Option<StorageDevice>, storages: seq<StorageDevice>): (r: Option<StorageDevice>)
    ensures selected.Some? ==> r == selected
    ensures selected.None? && r.Some? ==>
      exists i :: 0 <= i < |storages| && storages[i] == r.value && IsStorageHealthy(storages[i]) &&
        forall j :: 0 <= j < i ==> !IsStorageHealthy(storages[j])
    ensures r.None? <==> selected.None? && forall i :: 0 <= i < |storages| ==> !IsStorageHealthy(storages[i])
  {
    if selected.None? && |storages| > 0 then
      match Find(storages, IsStorageHealthy)
      case Some(h) => Some(h)
      case None => selected
    else selected
  }

  /** `handleStorageChange`: the first listed storage with that path, or nothing. */
  function HandleStorageChange(storages: seq<StorageDevice>, path: string): (r: Option<StorageDevice>)
    ensures r.Some? ==> exists i :: 0 <= i < |storages| && storages[i] == r.value && r.value.path == path &&
                          forall j :: 0 <= j < i ==> storages[j].path != path
    ensures r.None? <==> forall i :: 0 <= i < |storages| ==> storages[i].path != path
  {
    Find(storages, (s: StorageDevice) => s.path == path)
  }
}
