/**
 * The two `os.path` functions of POSIX Python the service uses, with `/` as
 * the separator and `.` as the extension separator: `basename` and
 * `splitext`, both built on `rfind`.
 */
module PyPath {

  /** `s.rfind(c)`: the index of the last `c` in `s`, or -1 when there is none
      (stated for any sequence, as it also locates a column of a CSV header). */
  function RFind<T(==)>(s: seq<T>, c: T): (r: int)
    ensures -1 <= r < |s|
  {
    if s == [] then -1
    else if s[|s| - 1] == c then |s| - 1
    else RFind(s[..|s| - 1], c)
  }

  /** `rfind` reports -1 exactly when `c` does not occur, and otherwise an
      occurrence of `c` with none after it. */
  lemma {:induction false} RFindSpec<T>(s: seq<T>, c: T)
    ensures var r := RFind(s, c);
      && -1 <= r < |s|
      && (r == -1 <==> c !in s)
      && (0 <= r ==> s[r] == c)
      && (forall j :: r < j < |s| ==> s[j] != c)
  {
    if s != [] && s[|s| - 1] != c {
      RFindSpec(s[..|s| - 1], c);
      assert s == s[..|s| - 1] + [s[|s| - 1]];
    }
  }

  /** Without a `c`, `rfind` reports -1. */
  lemma RFindAbsent<T>(s: seq<T>, c: T)
    requires c !in s
    ensures RFind(s, c) == -1
  {
    RFindSpec(s, c);
  }

  /** No occurrence of `c` lies after the one `RFind` reports. */
  lemma RFindIsLast<T>(s: seq<T>, c: T, k: int)
    requires 0 <= k < |s| && s[k] == c
    ensures k <= RFind(s, c)
  {
    RFindSpec(s, c);
  }

  /** The last occurrence is the one `RFind` reports. */
  lemma RFindAt<T>(s: seq<T>, c: T, k: int)
    requires 0 <= k < |s| && s[k] == c
    requires forall j :: k < j < |s| ==> s[j] != c
    ensures RFind(s, c) == k
  {
    RFindSpec(s, c);
  }

  /** `os.path.basename(p)`: the text after the last `/`. */
  function Basename(p: string): string {
    p[RFind(p, '/') + 1..]
  }

  /** The base name is the longest suffix of `p` without a `/`. */
  lemma BasenameSpec(p: string)
    ensures var r := Basename(p);
      && '/' !in r
      && |r| <= |p| && r == p[|p| - |r|..]
      && (|r| < |p| ==> p[|p| - |r| - 1] == '/')
      && ('/' !in p ==> r == p)
  {
    RFindSpec(p, '/');
  }

  /** Some character of `s` is not a dot. */
  predicate HasNonDot(s: string) {
    exists i :: 0 <= i < |s| && s[i] != '.'
  }

  /** A file name with an extension: some dot comes after a character that is
      not a dot (so `.bashrc` and `..` have none, `a.txt` and `.a.txt` have one). */
  predicate HasExt(name: string) {
    exists i, j :: 0 <= i < j < |name| && name[i] != '.' && name[j] == '.'
  }

  /** `os.path.splitext(p)`: (root, ext), where ext runs from the last dot of
      the last path component, unless only dots precede that dot in it. */
  function SplitExt(p: string): (r: (string, string))
    ensures r.0 + r.1 == p
    ensures r.1 != [] ==> r.1[0] == '.' && '.' !in r.1[1..] && '/' !in r.1
  {
    var sepIndex := RFind(p, '/');
    var dotIndex := RFind(p, '.');
    if dotIndex > sepIndex && HasNonDot(p[sepIndex + 1..dotIndex]) then
      ExtensionShape(p, sepIndex, dotIndex);
      (p[..dotIndex], p[dotIndex..])
    else
      (p, "")
  }

  /** The text from the last dot on, when that dot follows the last slash. */
  lemma ExtensionShape(p: string, sepIndex: int, dotIndex: int)
    requires sepIndex == RFind(p, '/') && dotIndex == RFind(p, '.')
    requires -1 <= sepIndex < dotIndex < |p|
    ensures p[dotIndex..][0] == '.' && '.' !in p[dotIndex..][1..] && '/' !in p[dotIndex..]
  {
    RFindSpec(p, '/');
    RFindSpec(p, '.');
    assert p[dotIndex..][1..] == p[dotIndex + 1..];
    assert p[dotIndex..] == p[sepIndex + 1..][dotIndex - sepIndex - 1..];
  }

  /** `splitext` finds an extension exactly when the base name has one. */
  lemma SplitExtFindsExt(p: string)
    ensures SplitExt(p).1 != [] <==> HasExt(Basename(p))
  {
    RFindSpec(p, '/');
    RFindSpec(p, '.');
    var s := RFind(p, '/');
    var d := RFind(p, '.');
    var b := Basename(p);
    assert b == p[s + 1..];
    if SplitExt(p).1 != [] {
      var i :| 0 <= i < |p[s + 1..d]| && p[s + 1..d][i] != '.';
      assert b[i] != '.' && b[d - s - 1] == '.';
    }
    if HasExt(b) {
      var i, j :| 0 <= i < j < |b| && b[i] != '.' && b[j] == '.';
      RFindIsLast(p, '.', s + 1 + j);
      assert p[s + 1..d][i] == b[i];
    }
  }

  /** A plain name followed by an extension splits into the two: the case of
      every `.txt` file in a flat directory. */
  lemma SplitExtPlain(root: string, ext: string)
    requires root != [] && root[0] != '.' && '/' !in root && '.' !in root
    requires ext != [] && ext[0] == '.' && '/' !in ext && '.' !in ext[1..]
    ensures SplitExt(root + ext) == (root, ext)
  {
    var p := root + ext;
    assert '/' !in p by {
      forall j | 0 <= j < |p| ensures p[j] != '/' {
        if j < |root| { assert p[j] == root[j]; } else { assert p[j] == ext[j - |root|]; }
      }
    }
    RFindAbsent(p, '/');
    forall j | |root| < j < |p| ensures p[j] != '.' {
      assert p[j] == ext[1..][j - |root| - 1];
    }
    RFindAt(p, '.', |root|);
    assert p[..|root|] == root && p[|root|..] == ext;
    assert p[0] == root[0];
  }

  /** `123_Some-Title.txt` splits at its last dot; in `.bashrc` a leading
      dot does not start an extension. */
  lemma SplitExtExamples()
    ensures SplitExt("123_Some-Title.txt") == ("123_Some-Title", ".txt")
    ensures SplitExt(".bashrc") == (".bashrc", "")
  {
    assert "123_Some-Title.txt" == "123_Some-Title" + ".txt";
    SplitExtPlain("123_Some-Title", ".txt");
    var b := ".bashrc";
    assert '/' !in b;
    RFindAbsent(b, '/');
    RFindAt(b, '.', 0);
  }
}
