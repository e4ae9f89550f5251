/** Node's `path.extname` on POSIX paths, which the upload filter applies to
    the uploaded file's original name. */
module NodePath {
  import opened Common
  import opened JsString

  /** `p` without its trailing slashes. */
  function StripTrailingSlashes(p: string): (r: string)
    ensures |r| <= |p| && r == p[..|r|]
    ensures r == [] || r[|r| - 1] != '/'
    ensures forall i :: |r| <= i < |p| ==> p[i] == '/'
  {
    if p != [] && p[|p| - 1] == '/' then StripTrailingSlashes(p[..|p| - 1]) else p
  }

  /** The last component of `p`, trailing slashes ignored. */
  function BaseName(p: string): (b: string)
    ensures '/' !in b
    ensures var t := StripTrailingSlashes(p); |b| <= |t| && b == t[|t| - |b|..]
  {
    var t := StripTrailingSlashes(p);
    match LastIndexOf(t, '/')
    case None => t
    case Some(i) =>
      var b := t[i + 1..];
      assert forall k :: 0 <= k < |b| ==> b[k] == t[i + 1 + k];
      b
  }

  /** `path.extname(p)`: from the last `.` of the last component to its end;
      empty when the component has no `.`, when its only leading `.` makes it
      a dotfile, or when it is `..`. */
  function ExtName(p: string): (e: string)
    ensures e == [] || (e[0] == '.' && '.' !in e[1..] && '/' !in e)
    ensures var b := BaseName(p); |e| <= |b| && e == b[|b| - |e|..]
    ensures e == [] <==> var b := BaseName(p);
              '.' !in b || b == ".." || (b[0] == '.' && '.' !in b[1..])
  {
    var b := BaseName(p);
    match LastIndexOf(b, '.')
    case None => []
    case Some(d) =>
      if d == 0 || b == ".." then
        assert d == 0 ==> '.' !in b[1..] by {
          if d == 0 {
            assert forall k :: 0 <= k < |b[1..]| ==> b[1..][k] == b[k + 1];
          }
        }
        []
      else
        var e := b[d..];
        assert forall k :: 0 <= k < |e| ==> e[k] == b[d + k];
        assert b[0] == '.' ==> b[d] in b[1..];
        e
  }

  /** A plain file name `stem.ext` has the extension `.ext`. The one
      name of this shape left out is `..` (stem `.`, empty `ext`), which
      has no extension. */
  lemma ExtNameOfFileName(stem: string, ext: string)
    requires stem != [] && (stem != "." || ext != [])
    requires '/' !in stem && '/' !in ext && '.' !in ext
    ensures ExtName(stem + "." + ext) == "." + ext
  {
    var b := stem + "." + ext;
    assert b[|b| - 1] != '/';
    assert StripTrailingSlashes(b) == b;
    assert '/' !in b;
    assert BaseName(b) == b;
    assert b[|stem|] == '.';
    assert forall j :: |stem| < j < |b| ==> b[j] == ext[j - |stem| - 1];
    assert LastIndexOf(b, '.') == Some(|stem|);
    assert b[|stem|..] == "." + ext;
  }

  /** A name whose last component has no `.` has no extension. */
  lemma ExtNameWithoutDot(p: string)
    requires '.' !in p
    ensures ExtName(p) == ""
  {
    var t := StripTrailingSlashes(p);
    assert forall k :: 0 <= k < |t| ==> t[k] == p[k];
  }
}
