/**
 How the program decides what the single positional argument names. The
 decision looks only at the text from the FIRST '.' of the argument to its
 end (C's `strchr`), compared with ".ic3" ignoring case (`strcmpi`).
 */
module InputSource {
  import opened Wrappers

  /** The single-file extension, compared case-insensitively. */
  const CombinedExt: string := ".ic3"

  /** Appended to a stem to name the half file of even addresses. */
  const LowSuffix: string := "-l.bin"

  /** Appended to a stem to name the half file of odd addresses. */
  const HighSuffix: string := "-h.bin"

  /** What the argument denotes. */
  datatype Source =
    | Combined(path: string)                      // one 256 KiB ".ic3" file
    | Split(lowPath: string, highPath: string)    // a stem naming two 128 KiB halves
    | Unknown                                     // any other extension: a hard stop

  /** Position of the first occurrence of `c` in `s`, as `strchr` finds it. */
  function FirstIndex(s: string, c: char): (r: Option<nat>)
    ensures r.None? <==> c !in s
    ensures r.Some? ==> r.value < |s| && s[r.value] == c && c !in s[..r.value]
    decreases |s|
  {
    if |s| == 0 then None
    else if s[0] == c then Some(0)
    else
      match FirstIndex(s[1..], c)
      case None => None
      case Some(k) =>
        assert s[..k + 1] == [s[0]] + s[1..][..k];
        Some(k + 1)
  }

  /** ASCII lower-casing, the folding `strcmpi` applies in the C locale. */
  function Lower(c: char): char
  {
    if 'A' <= c <= 'Z' then (c as int + 32) as char else c
  }

  /** `strcmpi(a, b) == 0`: same length, equal after lower-casing each character. */
  predicate EqualIgnoringCase(a: string, b: string)
  {
    |a| == |b| && forall i :: 0 <= i < |a| ==> Lower(a[i]) == Lower(b[i])
  }

  /** `k` is the position of the first '.' of `s`. */
  predicate FirstDotAt(s: string, k: int)
  {
    0 <= k < |s| && s[k] == '.' && '.' !in s[..k]
  }

  /** Classifies the positional argument. */
  function Classify(arg: string): (src: Source)
    ensures src.Split? <==> '.' !in arg
    ensures src.Split? ==> src.lowPath == arg + LowSuffix && src.highPath == arg + HighSuffix
    ensures src.Combined? ==> src.path == arg
    ensures src.Combined? <==> exists k :: FirstDotAt(arg, k) && EqualIgnoringCase(arg[k..], CombinedExt)
  {
    match FirstIndex(arg, '.')
    case Some(k) =>
      if EqualIgnoringCase(arg[k..], CombinedExt) then Combined(arg) else Unknown
    case None => Split(arg + LowSuffix, arg + HighSuffix)
  }

  /** Only '.' itself lower-cases to '.'. */
  lemma LowerIsDot(c: char)
    ensures Lower(c) == '.' <==> c == '.'
  {
  }

  /** An argument whose text from its first '.' on is ".ic3" in any case ends in that extension. */
  lemma ExtensionShape(arg: string, k: int)
    requires FirstDotAt(arg, k) && EqualIgnoringCase(arg[k..], CombinedExt)
    ensures k == |arg| - 4
    ensures forall i :: 0 <= i < |arg| && i != k ==> arg[i] != '.'
    ensures forall i :: k <= i < |arg| ==> Lower(arg[i]) == Lower(CombinedExt[i - k])
  {
    var ext := arg[k..];
    assert forall j :: 0 <= j < |ext| ==> ext[j] == arg[k + j];
    assert forall i :: 0 <= i < k ==> arg[..k][i] == arg[i];
    assert Lower(CombinedExt[1]) == 'i' && Lower(CombinedExt[2]) == 'c' && Lower(CombinedExt[3]) == '3';
    forall i | k < i < |arg|
      ensures arg[i] != '.'
    {
      LowerIsDot(arg[i]);
      assert Lower(arg[i]) == Lower(ext[i - k]) == Lower(CombinedExt[i - k]);
    }
  }

  /** A combined-mode argument holds exactly one '.', four characters from its end. */
  lemma CombinedShape(arg: string)
    requires Classify(arg).Combined?
    ensures |arg| >= 4 && arg[|arg| - 4] == '.'
    ensures forall i :: 0 <= i < |arg| && i != |arg| - 4 ==> arg[i] != '.'
    ensures forall i :: |arg| - 4 <= i < |arg| ==> Lower(arg[i]) == Lower(CombinedExt[i - (|arg| - 4)])
  {
    var k := FirstIndex(arg, '.').value;
    assert FirstDotAt(arg, k) && EqualIgnoringCase(arg[k..], CombinedExt);
    ExtensionShape(arg, k);
  }

  /**
   A '.' anywhere before the last path separator (a dotted directory name)
   makes the argument Unknown, whatever the file name itself looks like.
   */
  lemma DottedDirectoryIsUnknown(dir: string, sep: char, name: string)
    requires sep == '\\' || sep == '/'
    requires '.' in dir
    ensures Classify(dir + [sep] + name).Unknown?
  {
    var arg := dir + [sep] + name;
    var k := FirstIndex(dir, '.').value;
    assert arg[k] == '.' && k < |dir|;
    assert arg[|dir|] == sep && Lower(sep) == sep;
    assert Lower(CombinedExt[1]) != sep && Lower(CombinedExt[2]) != sep && Lower(CombinedExt[3]) != sep;
    if Classify(arg).Combined? {
      CombinedShape(arg);
      assert false;
    }
  }

  /** A stem without '.' plus any case variant of ".ic3" is combined mode. */
  lemma ExtensionIgnoresCase(stem: string, ext: string)
    requires '.' !in stem
    requires EqualIgnoringCase(ext, CombinedExt)
    ensures Classify(stem + ext) == Combined(stem + ext)
  {
    var arg := stem + ext;
    assert ext[0] == '.';
    assert arg[..|stem|] == stem;
    assert arg[|stem|..] == ext;
    assert FirstDotAt(arg, |stem|);
  }

  /** A second extension hides ".ic3": only the text from the first '.' counts. */
  lemma TwoDotsAreUnknown(arg: string, i: int, j: int)
    requires 0 <= i < j < |arg| && arg[i] == '.' && arg[j] == '.'
    ensures Classify(arg).Unknown?
  {
    if Classify(arg).Combined? {
      CombinedShape(arg);
      assert false;
    }
  }

  /** The two half-file names built for a stem always differ, so the loader opens two distinct files. */
  lemma SplitPathsDiffer(arg: string)
    ensures Classify(arg).Split? ==> Classify(arg).lowPath != Classify(arg).highPath
  {
    assert (arg + LowSuffix)[|arg| + 1] == 'l';
    assert (arg + HighSuffix)[|arg| + 1] == 'h';
  }
}
