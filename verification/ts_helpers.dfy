/** The string helpers of the TypeScript generator
    (internal/generate/helpers.go). */
module TsHelpers {
  import opened Wrappers
  import opened Text

  /** `must`: the value when there is no error, a panic otherwise. */
  function Must<T>(v: T, err: Option<string>): (r: Result<T>)
    ensures r.Ok? <==> err.None?
    ensures r.Ok? ==> r.value == v
    ensures r.Fail? ==> r.error == err.value
  {
    if err.Some? then Fail(err.value) else Ok(v)
  }

  /** `capitalize`: the first character upper-cased, the rest untouched. */
  function Capitalize(s: string): (r: string)
    ensures |r| == |s|
    ensures |s| > 0 ==> r[0] == UpperChar(s[0]) && r[1..] == s[1..]
  {
    if s == "" then "" else [UpperChar(s[0])] + s[1..]
  }

  /** `uncapitalize`: the first character lower-cased, the rest untouched. */
  function Uncapitalize(s: string): (r: string)
    ensures |r| == |s|
    ensures |s| > 0 ==> r[0] == LowerChar(s[0]) && r[1..] == s[1..]
  {
    if s == "" then "" else [LowerChar(s[0])] + s[1..]
  }

  /** Capitalizing twice is capitalizing once, and a name that starts with
      a lower-case ASCII letter survives capitalize-then-uncapitalize. */
  lemma CapitalizeRoundTrip(s: string)
    ensures Capitalize(Capitalize(s)) == Capitalize(s)
    ensures |s| > 0 && IsAsciiLower(s[0]) ==> Uncapitalize(Capitalize(s)) == s
  {
    if |s| > 0 {
      assert Capitalize(Capitalize(s)) == [UpperChar(UpperChar(s[0]))] + s[1..];
      if IsAsciiLower(s[0]) {
        assert LowerChar(UpperChar(s[0])) == s[0];
        assert Uncapitalize(Capitalize(s)) == [s[0]] + s[1..];
      }
    }
  }

  /** `extractSchemaName`: the text after the last `/`. */
  function ExtractSchemaName(path: string): (name: string)
    ensures '/' !in name
  {
    var parts := Split(path, '/');
    parts[|parts| - 1]
  }

  /** Splitting a text with one more separator and a separator-free piece
      appended gives one more piece. */
  lemma {:induction false} SplitAppend(p: string, t: string, sep: char)
    requires sep !in t
    ensures Split(p + [sep] + t, sep) == Split(p, sep) + [t]
    decreases |p|
  {
    if sep !in p {
      SplitCons(p, t, sep);
    } else {
      var i := IndexOf(p, sep);
      var a, q := p[..i], p[i + 1..];
      assert p == a + [sep] + q;
      SplitCons(a, q, sep);
      assert p + [sep] + t == a + [sep] + (q + [sep] + t);
      SplitCons(a, q + [sep] + t, sep);
      SplitAppend(q, t, sep);
      assert [a] + (Split(q, sep) + [t]) == ([a] + Split(q, sep)) + [t];
    }
  }

  /** The first piece is everything before the first separator. */
  lemma SplitCons(a: string, r: string, sep: char)
    requires sep !in a
    ensures Split(a + [sep] + r, sep) == [a] + Split(r, sep)
  {
    var s := a + [sep] + r;
    assert s[..|a|] == a && s[|a| + 1..] == r;
    SplitAt(s, sep, |a|);
  }

  lemma SplitAt(s: string, sep: char, i: nat)
    requires i < |s| && s[i] == sep && sep !in s[..i]
    ensures Split(s, sep) == [s[..i]] + Split(s[i + 1..], sep)
  {
    IndexOfAt(s, sep, i);
  }

  /** The first occurrence is the one with none before it. */
  lemma IndexOfAt(s: string, c: char, i: nat)
    requires i < |s| && s[i] == c && c !in s[..i]
    ensures IndexOf(s, c) == i
  {
  }

  /** The name at the end of a component reference is read back exactly. */
  lemma ExtractSchemaNameOfRef(dir: string, name: string)
    requires '/' !in name
    ensures ExtractSchemaName(dir + "/" + name) == name
  {
    SplitAppend(dir, name, '/');
    assert dir + "/" + name == dir + ['/'] + name;
  }
}
