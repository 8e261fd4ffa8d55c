/** Collapsing a bare import specifier to its package root. */
module ExternalPackages {
  import opened Base
  import opened Text

  /** None is a relative specifier: an unresolved relative miss, never an external package. */
  function ExternalPackage(spec: string): Option<string> {
    if spec == "" || HasPrefix(spec, ".") || HasPrefix(spec, "/") then None
    else if '/' !in spec && '.' in spec then Some(spec[..IndexByte(spec, '.')])
    else
      var parts := Split(spec, '/');
      if HasPrefix(spec, "@") then
        Some(if |parts| >= 2 then parts[0] + "/" + parts[1] else parts[0])
      else if '.' in parts[0] then
        Some(Join(parts[..if |parts| > 3 then 3 else |parts|], "/"))
      else Some(parts[0])
  }

  lemma {:induction false} JoinSplit(s: string, c: char)
    ensures Join(Split(s, c), [c]) == s && Free(Split(s, c), c)
  {
    var i := IndexByte(s, c);
    if i >= 0 {
      JoinSplit(s[i + 1..], c);
      assert s == s[..i] + [c] + s[i + 1..];
    }
  }

  lemma {:induction false} JoinPrefix(parts: seq<string>, n: nat, sep: string)
    requires 0 < n <= |parts|
    ensures Join(parts[..n], sep) <= Join(parts, sep)
    ensures parts[0] <= Join(parts, sep)
  {
    if n > 1 {
      JoinPrefix(parts[1..], n - 1, sep);
      assert parts[..n][1..] == parts[1..][..n - 1];
    }
  }

  lemma FirstPart(parts: seq<string>)
    requires |parts| >= 1 && Free(parts, '/') && Join(parts, "/") != "" && !HasPrefix(Join(parts, "/"), "/")
    ensures parts[0] != "" && parts[0][0] == Join(parts, "/")[0] && '/' !in parts[0]
    ensures |parts| >= 2 <==> '/' in Join(parts, "/")
  {
    if |parts| >= 2 {
      var s := parts[0] + "/" + Join(parts[1..], "/");
      assert s[|parts[0]|] == '/';
    }
  }

  /** The root is a non-empty prefix of the specifier. */
  lemma PackageIsPrefix(spec: string)
    requires ExternalPackage(spec).Some?
    ensures ExternalPackage(spec).value != "" && ExternalPackage(spec).value <= spec
  {
    var parts := Split(spec, '/');
    JoinSplit(spec, '/');
    FirstPart(parts);
    if |parts| >= 2 {
      JoinPrefix(parts, 2, "/");
      assert Join(parts[..2], "/") == parts[0] + "/" + parts[1];
    }
    var n := if |parts| > 3 then 3 else |parts|;
    JoinPrefix(parts, n, "/");
    assert parts[..n][0] == parts[0];
    JoinPrefix(parts[..n], 1, "/");
  }

  lemma PlainPackage(p: string)
    requires p != "" && '/' !in p && '.' !in p
    ensures ExternalPackage(p) == Some(p)
  {
    assert Split(p, '/') == [p];
    assert p[0] in p;
  }

  lemma SlashedPackage(parts: seq<string>)
    requires |parts| >= 2 && Free(parts, '/') && parts[0] != "" && parts[0][0] != '.'
    requires if parts[0][0] == '@' then |parts| == 2 else '.' in parts[0] && |parts| <= 3
    ensures ExternalPackage(Join(parts, "/")) == Some(Join(parts, "/"))
  {
    var r := Join(parts, "/");
    assert r == parts[0] + "/" + Join(parts[1..], "/");
    assert r[0] == parts[0][0] && r[|parts[0]|] == '/';
    assert parts[0][0] in parts[0];
    SplitJoin(parts, '/');
    assert parts[..|parts|] == parts;
    if parts[0][0] == '@' {
      assert HasPrefix(r, "@");
      assert Join(parts[1..], "/") == parts[1];
    } else {
      assert !HasPrefix(r, "@");
    }
  }

  /** A root is its own root, so all specifiers of a package that share it meet in one node. */
  lemma PackageIsFixed(spec: string)
    requires ExternalPackage(spec).Some?
    ensures ExternalPackage(ExternalPackage(spec).value) == ExternalPackage(spec)
  {
    var r := ExternalPackage(spec).value;
    var parts := Split(spec, '/');
    JoinSplit(spec, '/');
    FirstPart(parts);
    if '/' !in spec && '.' in spec {
      assert r == spec[..IndexByte(spec, '.')];
      assert r != "" by { assert spec[0] != '.'; }
      PlainPackage(r);
    } else if |parts| == 1 {
      assert parts[0] == spec && r == spec;
      PlainPackage(r);
    } else if HasPrefix(spec, "@") {
      assert Join([parts[0], parts[1]], "/") == r;
      SlashedPackage([parts[0], parts[1]]);
    } else if '.' in parts[0] {
      var n := if |parts| > 3 then 3 else |parts|;
      SlashedPackage(parts[..n]);
    } else {
      PlainPackage(r);
    }
  }

  // ---- by segments ----

  /** Specifiers that are empty, begin with a dot or begin with a slash are never packages; all others are. */
  lemma NoPackage(spec: string)
    ensures ExternalPackage(spec).None? <==> spec == "" || spec[0] == '.' || spec[0] == '/'
  {
    hide Split, Join, IndexByte;
  }

  /** A scoped package is its first two segments, one behind a host name its first three at most, any other its first. */
  lemma PackageSegments(parts: seq<string>)
    requires |parts| >= 2 && Free(parts, '/') && parts[0] != "" && parts[0][0] != '.'
    ensures ExternalPackage(Join(parts, "/")) == Some(
      if parts[0][0] == '@' then parts[0] + "/" + parts[1]
      else if '.' !in parts[0] then parts[0]
      else if |parts| == 2 then parts[0] + "/" + parts[1]
      else parts[0] + "/" + parts[1] + "/" + parts[2])
  {
    var s := Join(parts, "/");
    var rest := Join(parts[1..], "/");
    SplitJoin(parts, '/');
    assert s == parts[0] + "/" + rest && s[0] == parts[0][0];
    assert s[|parts[0]|] == '/';
    hide Split, Free;
    assert HasPrefix(s, "@") <==> parts[0][0] == '@';
    var n := if |parts| > 3 then 3 else |parts|;
    FirstSegments(parts, n);
    assert ExternalPackage(s) == Some(
      if parts[0][0] == '@' then parts[0] + "/" + parts[1] else if '.' in parts[0] then Join(parts[..n], "/") else parts[0])
    by {
      hide Join;
    }
  }

  lemma FirstSegments(parts: seq<string>, n: nat)
    requires 2 <= n <= 3 && n <= |parts|
    ensures Join(parts[..n], "/") == if n == 2 then parts[0] + "/" + parts[1] else parts[0] + "/" + parts[1] + "/" + parts[2]
  {
    var p := parts[..n];
    assert p[0] == parts[0] && p[1..][0] == parts[1];
    if n == 2 {
      assert p[1..] == [parts[1]];
    } else {
      assert p[1..] == [parts[1], parts[2]] && p[1..][1..] == [parts[2]];
      assert Join(p[1..], "/") == parts[1] + "/" + parts[2];
      assert parts[0] + "/" + (parts[1] + "/" + parts[2]) == parts[0] + "/" + parts[1] + "/" + parts[2];
    }
  }

  /** A module path with dots and no slash belongs to the name before the first dot, a plain name to itself. */
  lemma DottedPackage(name: string, rest: string)
    requires name != "" && '.' !in name && '/' !in name && '/' !in rest
    ensures ExternalPackage(name + "." + rest) == Some(name) && ExternalPackage(name) == Some(name)
  {
    var s := name + "." + rest;
    assert s[|name|] == '.' && s[0] == name[0];
    var i := IndexByte(s, '.');
    assert s == name + ['.'] + rest && s == s[..i] + ['.'] + s[i + 1..];
    CutUnique(name, rest, s[..i], s[i + 1..], '.');
    PlainPackage(name);
  }
}
