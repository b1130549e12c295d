/** The string and path helpers the editor windows and the settings store
    share: the runtime's String.Split with and without empty entries, the
    window's last-directory and relative-path helpers, and the file-name
    helpers of System.IO.Path. Strings are sequences of UTF-16 code units. */
module Paths {

  import opened Options

  function Last<T>(s: seq<T>): T
    requires |s| > 0
  {
    s[|s| - 1]
  }

  predicate StartsWith(s: string, prefix: string)
  {
    |prefix| <= |s| && s[..|prefix|] == prefix
  }

  predicate EndsWith(s: string, suffix: string)
  {
    |suffix| <= |s| && s[|s| - |suffix|..] == suffix
  }

  // ---------------------------------------------------------------------------
  // String.Split(sep) keeps the empty entries

  /** The pieces of s between occurrences of sep, empty ones included; a
      string with k separators has k + 1 pieces. */
  function Split(s: string, sep: char): (parts: seq<string>)
    ensures |parts| >= 1
    decreases |s|
  {
    if |s| == 0 then [""]
    else
      var init := Split(s[..|s| - 1], sep);
      if s[|s| - 1] == sep then init + [""]
      else init[..|init| - 1] + [Last(init) + [s[|s| - 1]]]
  }

  /** String.Join(sep, parts). */
  function Join(parts: seq<string>, sep: char): string
    requires |parts| >= 1
  {
    if |parts| == 1 then parts[0]
    else Join(parts[..|parts| - 1], sep) + [sep] + Last(parts)
  }

  predicate NoSep(parts: seq<string>, sep: char)
  {
    forall i :: 0 <= i < |parts| ==> sep !in parts[i]
  }

  lemma AppendAssoc<T>(a: seq<T>, b: seq<T>, c: seq<T>)
    ensures a + b + c == a + (b + c)
  {
  }

  /** Joining one more piece appends a separator and that piece. */
  lemma JoinSnoc(front: seq<string>, x: string, sep: char)
    requires |front| >= 1
    ensures Join(front + [x], sep) == Join(front, sep) + [sep] + x
  {
    assert (front + [x])[..|front|] == front;
  }

  /** Split on a string extended by one character. */
  lemma SplitSnoc(init: string, c: char, sep: char)
    ensures var p := Split(init, sep);
      Split(init + [c], sep) == if c == sep then p + [""] else p[..|p| - 1] + [Last(p) + [c]]
  {
    assert (init + [c])[..|init|] == init;
  }

  /** Splitting loses nothing: joining the pieces gives the string back. */
  lemma {:induction false} JoinSplit(s: string, sep: char)
    ensures Join(Split(s, sep), sep) == s
    decreases |s|
  {
    if |s| > 0 {
      var init, c := s[..|s| - 1], s[|s| - 1];
      JoinSplit(init, sep);
      assert s == init + [c];
      JoinSplitStep(init, c, sep);
    }
  }

  lemma JoinSplitStep(init: string, c: char, sep: char)
    requires Join(Split(init, sep), sep) == init
    ensures Join(Split(init + [c], sep), sep) == init + [c]
  {
    var p := Split(init, sep);
    SplitSnoc(init, c, sep);
    if c == sep {
      JoinSnoc(p, "", sep);
    } else if |p| == 1 {
      assert Split(init + [c], sep) == [p[0] + [c]];
    } else {
      JoinSplitLonger(init, c, sep);
    }
  }

  lemma JoinSplitLonger(init: string, c: char, sep: char)
    requires Join(Split(init, sep), sep) == init
    requires c != sep && |Split(init, sep)| > 1
    ensures Join(Split(init + [c], sep), sep) == init + [c]
  {
    var p := Split(init, sep);
    SplitSnoc(init, c, sep);
    var front := p[..|p| - 1];
    var j := Join(front, sep) + [sep];
    assert p == front + [Last(p)];
    JoinSnoc(front, Last(p), sep);
    JoinSnoc(front, Last(p) + [c], sep);
    calc {
      Join(Split(init + [c], sep), sep);
      Join(front + [Last(p) + [c]], sep);
      j + (Last(p) + [c]);
      { SnocAssoc(j, Last(p), c); }
      (j + Last(p)) + [c];
    }
  }

  lemma SnocAssoc(a: string, b: string, c: char)
    ensures a + (b + [c]) == (a + b) + [c]
  {
  }

  /** No piece contains the separator. */
  lemma {:induction false} SplitNoSep(s: string, sep: char)
    ensures NoSep(Split(s, sep), sep)
    decreases |s|
  {
    if |s| > 0 {
      SplitNoSep(s[..|s| - 1], sep);
    }
  }

  /** Splitting a join of separator-free pieces gives the pieces back. */
  lemma {:induction false} SplitJoin(parts: seq<string>, sep: char)
    requires |parts| >= 1 && NoSep(parts, sep)
    ensures Split(Join(parts, sep), sep) == parts
    decreases |parts|, |Last(parts)|, 1
  {
    if |parts| == 1 {
      SplitNoSepPiece(parts[0], sep);
    } else {
      SplitJoinLast(parts, sep);
    }
  }

  lemma {:induction false} SplitNoSepPiece(s: string, sep: char)
    requires sep !in s
    ensures Split(s, sep) == [s]
    decreases |s|
  {
    if |s| > 0 {
      var init, c := s[..|s| - 1], s[|s| - 1];
      assert c in s;
      assert forall x :: x in init ==> x in s;
      SplitNoSepPiece(init, sep);
      assert Split(s, sep) == [init][..0] + [init + [c]];
      assert s == init + [c];
    }
  }

  lemma {:induction false} SplitJoinLast(parts: seq<string>, sep: char)
    requires |parts| >= 2 && NoSep(parts, sep)
    ensures Split(Join(parts, sep), sep) == parts
    decreases |parts|, |Last(parts)|, 0
  {
    var front := parts[..|parts| - 1];
    var l := Last(parts);
    assert NoSep(front, sep);
    assert parts == front + [l];
    if |l| == 0 {
      SplitJoin(front, sep);
      SplitJoinEmptyLast(front, sep);
    } else {
      // peel the last character of the last piece
      var shorter := front + [l[..|l| - 1]];
      assert NoSep(shorter, sep) by {
        assert sep !in l;
        assert forall c :: c in l[..|l| - 1] ==> c in l;
      }
      assert shorter[..|shorter| - 1] == front;
      SplitJoinLast(shorter, sep);
      SplitJoinPeel(front, l, sep);
    }
  }

  lemma SplitJoinEmptyLast(front: seq<string>, sep: char)
    requires |front| >= 1 && Split(Join(front, sep), sep) == front
    ensures Split(Join(front + [""], sep), sep) == front + [""]
  {
    JoinSnoc(front, "", sep);
    var j := Join(front, sep);
    assert Join(front + [""], sep) == j + [sep];
    SplitSnoc(j, sep, sep);
  }

  lemma SplitJoinPeel(front: seq<string>, l: string, sep: char)
    requires |front| >= 1 && |l| > 0 && l[|l| - 1] != sep
    requires Split(Join(front + [l[..|l| - 1]], sep), sep) == front + [l[..|l| - 1]]
    ensures Split(Join(front + [l], sep), sep) == front + [l]
  {
    var i, c := l[..|l| - 1], l[|l| - 1];
    var jf := Join(front, sep) + [sep];
    JoinSnoc(front, i, sep);
    JoinSnoc(front, l, sep);
    var js := Join(front + [i], sep);
    assert l == i + [c];
    calc {
      Join(front + [l], sep);
      jf + (i + [c]);
      { SnocAssoc(jf, i, c); }
      js + [c];
    }
    SplitSnoc(js, c, sep);
    assert (front + [i])[..|front|] == front;
  }

  // ---------------------------------------------------------------------------
  // StringSplitOptions.RemoveEmptyEntries

  /** The pieces that are not empty, in order. */
  function NonEmpty(parts: seq<string>): (r: seq<string>)
    ensures |r| <= |parts|
    ensures forall i :: 0 <= i < |r| ==> r[i] != "" && r[i] in parts
    ensures forall i :: 0 <= i < |parts| && parts[i] != "" ==> parts[i] in r
  {
    if |parts| == 0 then []
    else NonEmpty(parts[..|parts| - 1]) + (if Last(parts) == "" then [] else [Last(parts)])
  }

  /** Removing empty entries works piece by piece, so it keeps the order
      of the parts. */
  lemma {:induction false} NonEmptyConcat(p: seq<string>, q: seq<string>)
    ensures NonEmpty(p + q) == NonEmpty(p) + NonEmpty(q)
    decreases |q|
  {
    if |q| > 0 {
      var q0 := q[..|q| - 1];
      var tail := if Last(q) == "" then [] else [Last(q)];
      NonEmptyConcat(p, q0);
      assert (p + q)[..|p + q| - 1] == p + q0;
      assert Last(p + q) == Last(q);
      calc {
        NonEmpty(p + q);
        NonEmpty(p + q0) + tail;
        NonEmpty(p) + NonEmpty(q0) + tail;
        NonEmpty(p) + (NonEmpty(q0) + tail);
        { assert NonEmpty(q) == NonEmpty(q0) + tail; }
        NonEmpty(p) + NonEmpty(q);
      }
    } else {
      assert p + q == p;
    }
  }
  /** A single non-empty part is kept as it is. */
  lemma NonEmptySingle(x: string)
    requires x != ""
    ensures NonEmpty([x]) == [x]
  {
    assert [x][..0] == [];
  }
  /** String.Split(sep, RemoveEmptyEntries). */
  function Segments(s: string, sep: char): seq<string>
  {
    NonEmpty(Split(s, sep))
  }

  /** s has a character other than '/', so it has a non-empty segment. */
  predicate HasSegment(s: string)
  {
    exists i :: 0 <= i < |s| && s[i] != '/'
  }

  /** s with its trailing slashes removed. */
  function TrimEndSlashes(s: string): (r: string)
    ensures StartsWith(s, r)
    ensures forall i :: |r| <= i < |s| ==> s[i] == '/'
    ensures |r| > 0 ==> Last(r) != '/'
  {
    if |s| > 0 && Last(s) == '/' then TrimEndSlashes(s[..|s| - 1]) else s
  }

  /** The runtime's last-directory helper (MapEdWindow.GetLastDirInPath):
      the last non-empty '/'-separated segment. It is the run of non-slash
      characters at the end of the path once trailing slashes are dropped. */
  function GetLastDirInPath(path: string): (r: string)
    requires HasSegment(path)
    ensures r != "" && '/' !in r && r in Segments(path, '/')
  {
    LastDirSpec(path);
    Last(Segments(path, '/'))
  }

  /** The last directory is a non-empty run of non-slash characters that
      ends the path, trailing slashes aside, and starts it or follows a '/'. */
  lemma LastDirShape(path: string)
    requires HasSegment(path)
    ensures var r := GetLastDirInPath(path);
      var body := TrimEndSlashes(path);
      r != "" && '/' !in r
      && EndsWith(body, r) && (|r| == |body| || body[|body| - |r| - 1] == '/')
  {
    LastDirSpec(path);
  }

  /** The last piece of a split is what follows the last separator. */
  lemma {:induction false} LastPiece(t: string)
    ensures var l := Last(Split(t, '/'));
      EndsWith(t, l) && '/' !in l && (|l| == |t| || t[|t| - |l| - 1] == '/')
    decreases |t|
  {
    if |t| > 0 && Last(t) != '/' {
      var init, c := t[..|t| - 1], Last(t);
      LastPiece(init);
      var l := Last(Split(init, '/'));
      assert Last(Split(t, '/')) == l + [c];
      assert t == init + [c];
      assert t[|t| - |l| - 1..] == init[|init| - |l|..] + [c];
      assert |l| < |init| ==> t[|t| - |l| - 2] == init[|init| - |l| - 1];
    } else if |t| > 0 {
      assert Split(t, '/') == Split(t[..|t| - 1], '/') + [""];
    }
  }

  lemma {:induction false} LastDirSpec(path: string)
    requires HasSegment(path)
    ensures |Segments(path, '/')| > 0
    ensures var r := Last(Segments(path, '/'));
      var body := TrimEndSlashes(path);
      r != "" && '/' !in r && EndsWith(body, r) && (|r| == |body| || body[|body| - |r| - 1] == '/')
    decreases |path|
  {
    if Last(path) == '/' {
      var init := path[..|path| - 1];
      var i :| 0 <= i < |path| && path[i] != '/';
      assert init[i] != '/';
      LastDirSpec(init);
      SegmentsTrailingSlash(path);
    } else {
      LastDirNoTrailingSlash(path);
    }
  }

  /** A trailing slash adds an empty piece, which RemoveEmptyEntries drops. */
  lemma SegmentsTrailingSlash(path: string)
    requires |path| > 0 && Last(path) == '/'
    ensures Segments(path, '/') == Segments(path[..|path| - 1], '/')
    ensures TrimEndSlashes(path) == TrimEndSlashes(path[..|path| - 1])
  {
    var p := Split(path[..|path| - 1], '/');
    assert Split(path, '/') == p + [""];
    assert (p + [""])[..|p|] == p;
  }

  lemma LastDirNoTrailingSlash(path: string)
    requires |path| > 0 && Last(path) != '/'
    ensures |Segments(path, '/')| > 0
    ensures var r := Last(Segments(path, '/'));
      r != "" && '/' !in r && EndsWith(path, r) && (|r| == |path| || path[|path| - |r| - 1] == '/')
    ensures TrimEndSlashes(path) == path
  {
    LastPiece(path);
    var p := Split(path[..|path| - 1], '/');
    var q := Split(path, '/');
    assert Last(q) == Last(p) + [Last(path)];
    assert Last(NonEmpty(q)) == Last(q);
  }

  /** Trailing slashes do not change the last directory. */
  lemma LastDirTrailingSlash(path: string)
    requires HasSegment(path)
    ensures HasSegment(path + "/")
    ensures GetLastDirInPath(path + "/") == GetLastDirInPath(path)
  {
    var p := path + "/";
    var i :| 0 <= i < |path| && path[i] != '/';
    assert p[i] != '/';
    assert p[..|p| - 1] == path;
    assert Split(p, '/') == Split(path, '/') + [""];
    assert (Split(path, '/') + [""])[..|Split(path, '/')|] == Split(path, '/');
  }

  // ---------------------------------------------------------------------------
  // Project paths

  /** Folder-panel paths are absolute; the asset database wants them
      relative to the project, starting at "Assets". The caller has checked
      that the path starts with the project's data path. */
  function FullPathToRelativePath(dataPath: string, path: string): (r: string)
    requires |dataPath| <= |path|
    ensures StartsWith(r, "Assets")
    ensures StartsWith(path, dataPath) ==> dataPath + r[6..] == path
  {
    "Assets" + path[|dataPath|..]
  }

  /** The data path with its last seven characters ("/Assets") removed. */
  function GetProjectRootPath(dataPath: string): (r: string)
    requires |dataPath| >= 7
    ensures StartsWith(dataPath, r) && |r| == |dataPath| - 7
    ensures EndsWith(dataPath, "/Assets") ==> r + "/Assets" == dataPath
  {
    dataPath[..|dataPath| - 7]
  }

  /** For a path below the data path, the project root, a slash and the
      relative path give the path back. */
  lemma RelativePathRoundTrip(dataPath: string, path: string)
    requires EndsWith(dataPath, "/Assets") && StartsWith(path, dataPath)
    ensures GetProjectRootPath(dataPath) + "/" + FullPathToRelativePath(dataPath, path) == path
  {
    var root := GetProjectRootPath(dataPath);
    var rel := FullPathToRelativePath(dataPath, path);
    assert root + "/Assets" == dataPath;
    assert rel == "Assets" + path[|dataPath|..];
    assert path == dataPath + path[|dataPath|..];
    assert root + "/" + rel == root + "/Assets" + path[|dataPath|..];
  }

  // ---------------------------------------------------------------------------
  // String.IsNullOrWhiteSpace, String.Replace

  /** Char.IsWhiteSpace: the Unicode space separators, the line and
      paragraph separators, and the control characters U+0009 to U+000D and
      U+0085. */
  predicate IsWhiteSpace(c: char)
  {
    c == ' ' || ('\t' <= c <= '\r') || c == '\U{0085}' || c == '\U{00A0}' || c == '\U{1680}'
    || ('\U{2000}' <= c <= '\U{200A}') || c == '\U{2028}' || c == '\U{2029}' || c == '\U{202F}'
    || c == '\U{205F}' || c == '\U{3000}'
  }

  /** A null, empty or all-white-space string; None stands for null. */
  predicate IsNullOrWhiteSpace(s: Option<string>)
  {
    s.None? || forall i :: 0 <= i < |s.value| ==> IsWhiteSpace(s.value[i])
  }

  /** String.Replace of a one-character string by another. */
  function Replace(s: string, from: char, to: char): (r: string)
    ensures |r| == |s|
    ensures forall i :: 0 <= i < |s| ==> r[i] == if s[i] == from then to else s[i]
  {
    if |s| == 0 then "" else Replace(s[..|s| - 1], from, to) + [if Last(s) == from then to else Last(s)]
  }

  lemma ReplaceConcat(a: string, b: string, from: char, to: char)
    ensures Replace(a + b, from, to) == Replace(a, from, to) + Replace(b, from, to)
  {
    var l, r := Replace(a + b, from, to), Replace(a, from, to) + Replace(b, from, to);
    assert forall i :: 0 <= i < |l| ==> l[i] == r[i];
  }

  lemma ReplaceAbsent(s: string, from: char, to: char)
    requires from !in s
    ensures Replace(s, from, to) == s
  {
    var r := Replace(s, from, to);
    assert forall i :: 0 <= i < |s| ==> r[i] == s[i];
  }

  // ---------------------------------------------------------------------------
  // System.IO.Path on an editor that accepts both separators

  predicate IsDirSep(c: char)
  {
    c == '/' || c == '\\'
  }

  /** The index of the last directory separator, or -1. */
  function LastSep(s: string): (r: int)
    ensures -1 <= r < |s|
    ensures r >= 0 ==> IsDirSep(s[r])
    ensures forall j :: r < j < |s| ==> !IsDirSep(s[j])
  {
    if |s| == 0 then -1
    else if IsDirSep(Last(s)) then |s| - 1
    else LastSep(s[..|s| - 1])
  }

  /** The index of the last '.', or -1. */
  function LastDot(s: string): (r: int)
    ensures -1 <= r < |s|
    ensures r >= 0 ==> s[r] == '.'
    ensures forall j :: r < j < |s| ==> s[j] != '.'
    ensures r < 0 <==> '.' !in s
  {
    if |s| == 0 then -1
    else if Last(s) == '.' then |s| - 1
    else LastDot(s[..|s| - 1])
  }

  /** Path.GetFileName: what follows the last separator. */
  function GetFileName(path: string): (r: string)
    ensures EndsWith(path, r)
    ensures forall i :: 0 <= i < |r| ==> !IsDirSep(r[i])
  {
    path[LastSep(path) + 1..]
  }

  /** Path.GetFileNameWithoutExtension: the file name up to its last '.'. */
  function GetFileNameWithoutExtension(path: string): (r: string)
    ensures StartsWith(GetFileName(path), r)
    ensures forall i :: 0 <= i < |r| ==> !IsDirSep(r[i])
  {
    var name := GetFileName(path);
    var dot := LastDot(name);
    if dot < 0 then name else name[..dot]
  }

  /** Only the last '.' of the file name and what follows it are dropped:
      a name without '.' is kept whole, any other is the result, a '.' and
      an extension with no '.' in it. */
  lemma FileNameWithoutExtensionParts(path: string)
    ensures var name, r := GetFileName(path), GetFileNameWithoutExtension(path);
      ('.' !in name ==> r == name)
      && ('.' in name ==> |r| < |name| && name == r + "." + name[|r| + 1..] && '.' !in name[|r| + 1..])
  {
    var name := GetFileName(path);
    if '.' in name {
      var dot := LastDot(name);
      assert name == name[..dot] + "." + name[dot + 1..];
    }
  }

  /** Path.GetDirectoryName: what precedes the last separator ("" when
      there is none). */
  function GetDirectoryName(path: string): (r: string)
    ensures StartsWith(path, r)
    ensures LastSep(path) >= 0 ==> |r| == LastSep(path)
    ensures LastSep(path) >= 0 ==> path == r + [path[|r|]] + GetFileName(path) && IsDirSep(path[|r|])
    ensures LastSep(path) < 0 ==> r == "" && GetFileName(path) == path
  {
    var k := LastSep(path);
    if k < 0 then "" else path[..k]
  }

  /** The last separator of a + b is in b when b has one. */
  lemma LastSepConcat(a: string, b: string)
    requires LastSep(b) >= 0
    ensures LastSep(a + b) == |a| + LastSep(b)
  {
    var k := |a| + LastSep(b);
    var ab := a + b;
    assert IsDirSep(ab[k]);
    LastSepUnique(ab, k);
  }

  lemma LastSepUnique(s: string, k: int)
    requires 0 <= k < |s| && IsDirSep(s[k])
    requires forall j :: k < j < |s| ==> !IsDirSep(s[j])
    ensures LastSep(s) == k
  {
  }

  /** A directory prefix in front of a path that has its own separator
      changes neither its file name nor the tail of its directory. */
  lemma PathConcat(a: string, b: string)
    requires LastSep(b) >= 0
    ensures GetFileName(a + b) == GetFileName(b)
    ensures GetFileNameWithoutExtension(a + b) == GetFileNameWithoutExtension(b)
    ensures GetDirectoryName(a + b) == a + GetDirectoryName(b)
  {
    FileNameConcat(a, b);
    DirectoryNameConcat(a, b);
  }

  lemma FileNameConcat(a: string, b: string)
    requires LastSep(b) >= 0
    ensures GetFileName(a + b) == GetFileName(b)
  {
    var k := LastSep(b);
    LastSepConcat(a, b);
    FileNameAt(a + b, |a| + k);
    FileNameAt(b, k);
    assert (a + b)[|a| + k + 1..] == b[k + 1..];
  }

  lemma FileNameAt(path: string, k: int)
    requires 0 <= k && LastSep(path) == k
    ensures GetFileName(path) == path[k + 1..]
  {
  }

  lemma DirectoryNameConcat(a: string, b: string)
    requires LastSep(b) >= 0
    ensures GetDirectoryName(a + b) == a + GetDirectoryName(b)
  {
    var k := LastSep(b);
    LastSepConcat(a, b);
    DirectoryNameAt(a + b, |a| + k);
    DirectoryNameAt(b, k);
    PrefixConcat(a, b, k);
  }

  lemma DirectoryNameAt(path: string, k: int)
    requires 0 <= k && LastSep(path) == k
    ensures GetDirectoryName(path) == path[..k]
  {
  }

  lemma PrefixConcat(a: string, b: string, k: int)
    requires 0 <= k <= |b|
    ensures (a + b)[..|a| + k] == a + b[..k]
  {
  }
}
