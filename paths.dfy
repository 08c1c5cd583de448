/** The parts of pathlib the index uses, on '/'-separated relative paths. */
module Paths {

  /** str.rfind(c): the position of the last c, or -1 when there is none. */
  function LastIndex(s: string, c: char): (i: int)
    ensures -1 <= i < |s|
  {
    if |s| == 0 then -1
    else if s[|s| - 1] == c then |s| - 1
    else LastIndex(s[..|s| - 1], c)
  }

  /** The result of rfind is the last occurrence, and -1 exactly when there is none. */
  lemma {:induction false} LastIndexIsLast(s: string, c: char)
    ensures LastIndex(s, c) == -1 ==> c !in s
    ensures 0 <= LastIndex(s, c) ==> s[LastIndex(s, c)] == c && c !in s[LastIndex(s, c) + 1..]
  {
    if |s| > 0 && s[|s| - 1] != c {
      var i := LastIndex(s[..|s| - 1], c);
      LastIndexIsLast(s[..|s| - 1], c);
      assert s == s[..|s| - 1] + [s[|s| - 1]];
      assert 0 <= i ==> s[i + 1..] == s[..|s| - 1][i + 1..] + [s[|s| - 1]];
    }
  }

  /** Path(p).parts[-1]: the final component of p, the characters after its last '/'. */
  function BaseName(path: string): string
  {
    if |path| == 0 || path[|path| - 1] == '/' then "" else BaseName(path[..|path| - 1]) + [path[|path| - 1]]
  }

  /** The final component is what follows the last separator, as rfind would find it. */
  lemma {:induction false} BaseNameIsFinalPart(path: string)
    ensures BaseName(path) == path[LastIndex(path, '/') + 1..]
    ensures '/' !in BaseName(path)
  {
    if |path| > 0 && path[|path| - 1] != '/' {
      var init := path[..|path| - 1];
      BaseNameIsFinalPart(init);
      assert LastIndex(path, '/') == LastIndex(init, '/');
      assert path[LastIndex(path, '/') + 1..] == init[LastIndex(init, '/') + 1..] + [path[|path| - 1]];
    }
  }

  /** PurePath.suffix of a final component: from its last '.', unless that dot leads or ends the name. */
  function Suffix(name: string): string
  {
    var i := LastIndex(name, '.');
    if 0 < i < |name| - 1 then name[i..] else ""
  }

  /** The suffix is a proper tail starting at the last inner dot; it is empty only when no dot is inner and last. */
  lemma SuffixIsExtension(name: string)
    ensures Suffix(name) == "" ==> forall k :: 0 < k < |name| - 1 && name[k] == '.' ==> '.' in name[k + 1..]
    ensures Suffix(name) != "" ==>
      && 2 <= |Suffix(name)| < |name| && Suffix(name) == name[|name| - |Suffix(name)|..]
      && Suffix(name)[0] == '.' && '.' !in Suffix(name)[1..]
  {
    var i := LastIndex(name, '.');
    LastIndexIsLast(name, '.');
    if 0 < i < |name| - 1 {
      assert name[i..][1..] == name[i + 1..];
    } else {
      LaterDot(name, i);
    }
  }

  /** When the last dot of name is not an inner one, every inner dot has another dot after it. */
  lemma LaterDot(name: string, i: int)
    requires i == LastIndex(name, '.') && !(0 < i < |name| - 1)
    ensures forall k :: 0 < k < |name| - 1 && name[k] == '.' ==> '.' in name[k + 1..]
  {
    LastIndexIsLast(name, '.');
    forall k | 0 < k < |name| - 1 && name[k] == '.' ensures '.' in name[k + 1..] {
      if k <= i {
        assert i == |name| - 1;
        assert name[i] == name[k + 1..][i - k - 1];
      }
    }
  }

  /** The snapshot file and its backup end in ".json"; the scan skips every such file. */
  predicate IsConfigFile(path: string)
  {
    Suffix(BaseName(path)) == ".json"
  }

  /** (Path(root) / rel).resolve(), without symbolic links or "..". */
  function ResolvePath(root: string, relPath: string): string
  {
    root + "/" + relPath
  }
}
