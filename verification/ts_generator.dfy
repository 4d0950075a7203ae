/** The text builder of the TypeScript generator
    (internal/generate/generator.go): a buffer, the indentation wanted for
    the next name (`goalIntent`) and the indentation already written on the
    current line (`currentIntent`), and the rendering of schemas as
    TypeScript types. A panic aborts the Go generator; here the first one is
    kept in `failure` and the text is discarded by the caller. */
module TsGenerator {
  import opened Wrappers
  import opened Text
  import opened OpenApi
  import GoMaps
  import TsHelpers

  const Marker := "%REMOVEME%"

  /** What dereferencing the nil `Items` of an array schema panics with. */
  const NilItems := "runtime error: invalid memory address or nil pointer dereference"

  datatype Gen = Gen(buf: string, goal: int, current: int, failure: Option<string>)

  /** `newTsGenerator` on an empty buffer. */
  const Fresh: Gen := Gen("", 0, 0, None)

  /** `r` kept `g`'s goal and its failure. */
  predicate Grows(g: Gen, r: Gen) {
    r.goal == g.goal && r.failure == g.failure
  }

  /** `r` kept `g`'s goal, and is free of panics exactly when `g` was and
      every schema rendered on the way was `ok`. */
  predicate Follows(g: Gen, r: Gen, ok: bool) {
    r.goal == g.goal && (r.failure.None? <==> g.failure.None? && ok)
  }

  /** `s`, `colon`, `assign`, `semicolon`, `union`, `marker`: raw text. */
  function Write(g: Gen, s: string): (r: Gen)
    ensures Grows(g, r) && r.current == g.current
    ensures r.buf == g.buf + s
  {
    g.(buf := g.buf + s)
  }

  /** `intent`: pads the current line with tabs up to the goal; a line
      already indented further is left alone. */
  function Intent(g: Gen): (r: Gen)
    ensures Grows(g, r)
    ensures r.current >= g.goal && r.current >= g.current
    ensures forall i :: |g.buf| <= i < |r.buf| ==> r.buf[i] == '\t'
    ensures r.buf == g.buf + Repeat("\t", if g.goal > g.current then g.goal - g.current else 0)
    ensures r.current == if g.goal > g.current then g.goal else g.current
  {
    if g.goal != g.current && g.goal - g.current > 0 then
      var tabs := Repeat("\t", g.goal - g.current);
      RepeatTabs(g.goal - g.current);
      g.(buf := g.buf + tabs, current := g.goal)
    else g
  }

  lemma {:induction false} RepeatTabs(n: nat)
    ensures forall i :: 0 <= i < |Repeat("\t", n)| ==> Repeat("\t", n)[i] == '\t'
  {
    if n > 0 {
      RepeatTabs(n - 1);
    }
  }

  /** `newline`: a line break; the new line has no indentation yet. */
  function Newline(g: Gen): (r: Gen)
    ensures Grows(g, r) && r.current == 0
  {
    g.(buf := g.buf + "\n", current := 0)
  }

  /** `name`: indentation, then the text. */
  function Name(g: Gen, s: string): (r: Gen)
    ensures Grows(g, r) && r.current >= g.goal
  {
    Write(Intent(g), s)
  }

  function Colon(g: Gen): (r: Gen)
    ensures Grows(g, r) && r.current == g.current
  {
    Write(g, ": ")
  }

  /** `union`: the ` | ` between the members of a TypeScript union. */
  function Union(g: Gen): (r: Gen)
    ensures Grows(g, r) && r.current == g.current
  {
    Write(g, " | ")
  }

  function Mark(g: Gen): (r: Gen)
    ensures Grows(g, r) && r.current == g.current
  {
    Write(g, Marker)
  }

  /** The first half of `scope`: an opening brace on its own line, the
      goal one deeper for the body. */
  function Open(g: Gen): (r: Gen)
    ensures r.failure == g.failure
    ensures r.goal == g.goal + 1 && r.current == 0
  {
    var t := Newline(Name(g, "{"));
    t.(goal := t.goal + 1)
  }

  /** The second half of `scope`: back to the outer goal, a closing brace
      on a new line indented to it. */
  function Close(g: Gen): (r: Gen)
    ensures r.failure == g.failure
    ensures r.goal == g.goal - 1
  {
    Name(Newline(g.(goal := g.goal - 1)), "}")
  }

  /** `doc`: a block comment with one ` *  ` line per entry. */
  function Doc(g: Gen, lines: seq<string>): (r: Gen)
    ensures Grows(g, r) && r.current == 0
  {
    Newline(Write(Write(Write(g, "/**\n"), DocLines(lines)), "*/"))
  }

  function DocLines(lines: seq<string>): string {
    if |lines| == 0 then "" else " *  " + lines[0] + "\n" + DocLines(lines[1..])
  }

  /** `comment`: a `//` line. */
  function Comment(g: Gen, s: string): (r: Gen)
    ensures Grows(g, r) && r.current == 0
  {
    Newline(Write(Name(g, "// "), s))
  }

  /** The schemas `writeSchemaToBuffer` renders without dereferencing a nil
      pointer: every array reached through properties and items has items.
      A reference is rendered by name and never looked into. */
  predicate Renderable(s: Schema)
    decreases s
  {
    s.ref != "" ||
    ((s.typ == "object" ==> forall i :: 0 <= i < |s.properties| ==> Renderable(s.properties[i].1)) &&
     (s.typ == "array" ==> s.items.Some? && Renderable(s.items.value)))
  }

  /** `writeSchemaToBuffer(s, level)`: the TypeScript type of a schema.
      Properties sit two spaces past the indentation of their level, an
      optional one marked `?`; a non-empty reference is rendered as the name
      at its end. */
  function SchemaText(s: Schema, level: int): (r: Result<string>)
    ensures r.Ok? <==> Renderable(s)
    ensures r.Fail? ==> r.error == NilItems
    decreases s
  {
    if s.ref != "" then Ok(TsHelpers.ExtractSchemaName(s.ref))
    else
      var indent := Indent(level);
      match s.typ
      case "object" =>
        if |s.properties| > 0 then
          var body := PropertiesText(s.properties, s.required, level, indent);
          if body.Fail? then Fail(body.error) else Ok("{\n" + body.value + indent + "}")
        else Ok("never")
      case "array" =>
        if s.items.None? then Fail(NilItems)
        else
          var t := SchemaText(s.items.value, level);
          if t.Fail? then Fail(t.error) else Ok(t.value + "[]")
      case "string" => Ok("string")
      case "number" => Ok("number")
      case "integer" => Ok("number")
      case "boolean" => Ok("boolean")
      case "null" => Ok("null")
      case _ => Ok("any")
  }

  /** The property lines of an object schema whose required names are
      `required`. */
  function PropertiesText(props: GoMaps.GoMap<string, Schema>, required: seq<string>, level: int, indent: string): (r: Result<string>)
    ensures r.Ok? <==> forall i :: 0 <= i < |props| ==> Renderable(props[i].1)
    ensures r.Fail? ==> r.error == NilItems
    decreases props
  {
    if |props| == 0 then Ok("")
    else
      var name := props[0].0;
      assert props[0].1 < props[0];
      var sub := SchemaText(props[0].1, level + 1);
      var rest := PropertiesText(props[1..], required, level, indent);
      if sub.Fail? then Fail(sub.error)
      else if rest.Fail? then Fail(rest.error)
      else
        Ok(PropertyLine(name, required, indent, sub.value) + rest.value)
  }

  /** The tabs of a nesting level; none for a negative one. */
  function Indent(level: int): string {
    Repeat("\t", if level > 0 then level else 0)
  }

  /** One property of an object type: two spaces past the indentation, the
      name, `?` unless the name is required, and its type. */
  function PropertyLine(name: string, required: seq<string>, indent: string, sub: string): string {
    indent + "  " + name + (if name in required then "" else "?") + ": " + sub + ";\n"
  }

  /** A property line carries `?` exactly when its name is not required: it
      reads `<indent>  <name>?: <type>;` then, and `<indent>  <name>: <type>;`
      otherwise. */
  lemma OptionalMark(name: string, required: seq<string>, indent: string, sub: string)
    ensures name !in required <==> PropertyLine(name, required, indent, sub) == indent + "  " + name + "?" + ": " + sub + ";\n"
    ensures name in required <==> PropertyLine(name, required, indent, sub) == indent + "  " + name + ": " + sub + ";\n"
  {
    var head := indent + "  " + name;
    if name in required {
      assert PropertyLine(name, required, indent, sub) == head + ": " + sub + ";\n";
      OptionalAt(head, sub);
    } else {
      assert PropertyLine(name, required, indent, sub) == head + "?" + ": " + sub + ";\n";
      OptionalAt(head, sub);
    }
  }

  /** The two forms differ at the character after the name. */
  lemma OptionalAt(head: string, sub: string)
    ensures head + "?" + ": " + sub + ";\n" != head + ": " + sub + ";\n"
  {
    assert (head + "?" + ": " + sub + ";\n")[|head|] == '?';
    assert (head + ": " + sub + ";\n")[|head|] == ':';
  }

  /** The type a schema renders to at `level`; nothing once it panicked. */
  function Rendered(s: Schema, level: int): string {
    var t := SchemaText(s, level);
    if t.Ok? then t.value else ""
  }

  /** The property lines of an object, one per property in order. */
  function PropertyLines(props: GoMaps.GoMap<string, Schema>, required: seq<string>, level: int): seq<string> {
    seq(|props|, i requires 0 <= i < |props| => PropertyLine(props[i].0, required, Indent(level), Rendered(props[i].1, level + 1)))
  }

  /** The properties render to their lines joined in order. */
  lemma {:induction false} PropertiesTextLines(props: GoMaps.GoMap<string, Schema>, required: seq<string>, level: int)
    requires forall i :: 0 <= i < |props| ==> Renderable(props[i].1)
    ensures PropertiesText(props, required, level, Indent(level)) == Ok(Concat(PropertyLines(props, required, level)))
    decreases |props|
  {
    if |props| > 0 {
      PropertiesTextLines(props[1..], required, level);
      assert PropertyLines(props, required, level)[1..] == PropertyLines(props[1..], required, level);
    }
  }

  /** An object with properties renders as a brace block of its property
      lines, each marked optional exactly when its name is not required;
      an array renders as its items' type followed by `[]`. */
  lemma SchemaTextShapes(s: Schema, level: int)
    requires s.ref == "" && Renderable(s)
    ensures s.typ == "object" && |s.properties| > 0 ==>
      SchemaText(s, level) == Ok("{\n" + Concat(PropertyLines(s.properties, s.required, level)) + Indent(level) + "}")
    ensures s.typ == "array" ==> SchemaText(s, level) == Ok(Rendered(s.items.value, level) + "[]")
  {
    if s.typ == "object" && |s.properties| > 0 {
      PropertiesTextLines(s.properties, s.required, level);
    }
  }

  /** `schema`: indentation, then the schema's type at the goal level. */
  function EmitSchema(g: Gen, s: Schema): (r: Gen)
    ensures Follows(g, r, Renderable(s))
  {
    var t := Intent(g);
    var text := SchemaText(s, t.goal);
    if text.Ok? then Write(t, text.value)
    else if t.failure.Some? then t
    else t.(failure := Some(text.error))
  }

  /** `bytes`: the markers, with a union bar or line breaks before them,
      removed. */
  function Strip(b: string): string {
    var b1 := ReplaceAll(b, " | " + Marker, "");
    var b2 := ReplaceAll(b1, "\n\n" + Marker, "");
    var b3 := ReplaceAll(b2, "\n" + Marker, "");
    ReplaceAll(b3, Marker, "")
  }

  /** Text after the last marker survives `bytes` unchanged when it holds
      no `%`: every marker pattern ends in one. */
  lemma StripKeepsTail(p: string, q: string)
    requires '%' !in q
    ensures Strip(p + q) == Strip(p) + q
  {
    var b1 := ReplaceAll(p, " | " + Marker, "");
    var b2 := ReplaceAll(b1, "\n\n" + Marker, "");
    var b3 := ReplaceAll(b2, "\n" + Marker, "");
    ReplaceAllKeepsTail(p, q, " | " + Marker, "");
    ReplaceAllKeepsTail(b1, q, "\n\n" + Marker, "");
    ReplaceAllKeepsTail(b2, q, "\n" + Marker, "");
    ReplaceAllKeepsTail(b3, q, Marker, "");
  }

  /** A head without `%` survives `bytes` unchanged when no marker pattern
      can reach back into it: it ends with a character no pattern has
      before its `%`, or the rest starts with one that none has up to it. */
  lemma StripKeepsHead(p: string, q: string)
    requires '%' !in p
    requires (|p| > 0 && p[|p| - 1] !in " |\n") || q == [] || q[0] !in " |\n%"
    ensures Strip(p + q) == p + Strip(q)
  {
    var p1, p2, p3 := " | " + Marker, "\n\n" + Marker, "\n" + Marker;
    assert p1[..3] == " | " && p1[..4] == " | %" && p1[3] == '%';
    assert p2[..2] == "\n\n" && p2[..3] == "\n\n%" && p2[2] == '%';
    assert p3[..1] == "\n" && p3[..2] == "\n%" && p3[1] == '%';
    assert Marker[..0] == "" && Marker[..1] == "%" && Marker[0] == '%';
    var q1 := ReplaceAll(q, p1, "");
    var q2 := ReplaceAll(q1, p2, "");
    var q3 := ReplaceAll(q2, p3, "");
    if |p| > 0 && p[|p| - 1] !in " |\n" {
      var c := p[|p| - 1];
      assert c != ' ' && c != '|' && c != '\n';
      assert c !in " | " && c !in "\n\n" && c !in "\n" && c !in "";
    } else if q == [] {
      assert q1 == [] && q2 == [] && q3 == [];
    } else {
      assert q[0] != ' ' && q[0] != '|' && q[0] != '\n' && q[0] != '%';
      assert q[0] !in " | %" && q[0] !in "\n\n%" && q[0] !in "\n%" && q[0] !in "%";
      ReplaceAllKeepsFirst(q, p1, "");
      ReplaceAllKeepsFirst(q1, p2, "");
      ReplaceAllKeepsFirst(q2, p3, "");
    }
    ReplaceAllKeepsHead(p, q, p1, "", 3);
    ReplaceAllKeepsHead(p, q1, p2, "", 2);
    ReplaceAllKeepsHead(p, q2, p3, "", 1);
    ReplaceAllKeepsHead(p, q3, Marker, "", 0);
  }

  /** A text without the character `c` contains no pattern that has it. */
  lemma NotContainsWithout(s: string, pat: string, c: char, j: nat)
    requires j < |pat| && pat[j] == c && c !in s
    ensures !Contains(s, pat)
  {
    forall i | 0 <= i <= |s| - |pat| ensures !OccursAt(s, pat, i) {
      assert s[i..i + |pat|][j] == s[i + j];
    }
  }

  /** A pattern appended to a text without `%` is the only occurrence, when
      the pattern's first `%` is at `j`: any earlier start would have to
      meet an earlier `%` of the pattern. */
  lemma {:induction false} ReplaceAllBeforePattern(a: string, pat: string, rep: string, j: nat)
    requires j < |pat| && pat[j] == '%' && '%' !in pat[..j]
    requires '%' !in a
    ensures ReplaceAll(a + pat, pat, rep) == a + rep
    decreases |a|
  {
    if |a| == 0 {
      assert a + pat == pat && pat[|pat|..] == "";
    } else {
      assert !StartsWith(a + pat, pat) by {
        if j < |a| {
          assert (a + pat)[j] == a[j];
        } else {
          assert (a + pat)[j] == pat[j - |a|] == pat[..j][j - |a|];
        }
      }
      assert (a + pat)[1..] == a[1..] + pat;
      ReplaceAllBeforePattern(a[1..], pat, rep, j);
    }
  }

  /** The purpose of the marker after a union: the trailing ` | ` of the
      last member is dropped, and nothing else changes. */
  lemma StripUnionTail(t: string)
    requires '%' !in t
    ensures Strip(t + " | " + Marker) == t
  {
    assert t + " | " + Marker == t + (" | " + Marker);
    assert (" | " + Marker)[..3] == " | ";
    ReplaceAllBeforePattern(t, " | " + Marker, "", 3);
    assert t + "" == t;
    NotContainsWithout(t, "\n\n" + Marker, '%', 2);
    ReplaceAllAbsent(t, "\n\n" + Marker, "");
    NotContainsWithout(t, "\n" + Marker, '%', 1);
    ReplaceAllAbsent(t, "\n" + Marker, "");
    NotContainsWithout(t, Marker, '%', 0);
    ReplaceAllAbsent(t, Marker, "");
  }

  /** A text without `%` holds no marker, and `bytes` leaves it as it is. */
  lemma StripWithoutPercent(b: string)
    requires '%' !in b
    ensures Strip(b) == b
  {
    assert (" | " + Marker)[3] == '%';
    NotContainsWithout(b, " | " + Marker, '%', 3);
    ReplaceAllAbsent(b, " | " + Marker, "");
    NotContainsWithout(b, "\n\n" + Marker, '%', 2);
    ReplaceAllAbsent(b, "\n\n" + Marker, "");
    NotContainsWithout(b, "\n" + Marker, '%', 1);
    ReplaceAllAbsent(b, "\n" + Marker, "");
    NotContainsWithout(b, Marker, '%', 0);
    ReplaceAllAbsent(b, Marker, "");
  }

  /** A reference to a component is rendered as the component's name, the
      name under which the generator declares the type. */
  lemma ComponentRefRendersName(dir: string, name: string, level: int)
    requires '/' !in name
    ensures SchemaText(RefTo(dir + "/" + name), level) == Ok(name)
  {
    TsHelpers.ExtractSchemaNameOfRef(dir, name);
    assert |dir + "/" + name| > 0;
  }

  /** Integers and numbers are both `number`; an object without properties
      is `never`, whatever its required list says. */
  lemma ScalarTypes(level: int, required: seq<string>)
    ensures SchemaText(Leaf("integer", Values.VNil), level) == Ok("number")
    ensures SchemaText(Leaf("number", Values.VNil), level) == Ok("number")
    ensures SchemaText(Schema("object", required, [], None, Values.VNil, "", ""), level) == Ok("never")
  {
  }
}
