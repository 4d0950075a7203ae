/** Client function names for the TypeScript API
    (internal/generate/naming.go): an action verb for the HTTP method, the
    route's literal segments capitalized, and "By" with its placeholders
    joined by "And", repeated placeholder names being numbered. */
module Naming {
  import opened Text
  import opened TsHelpers

  /** The `methodMap` lookup, falling back to the capitalized lower-case
      method. */
  function Action(verb: string): string {
    match verb
    case "GET" => "Get"
    case "POST" => "Create"
    case "PUT" => "Update"
    case "PATCH" => "Update"
    case "DELETE" => "Delete"
    case "OPTIONS" => "Options"
    case "HEAD" => "Head"
    case _ => Capitalize(ToLower(verb))
  }

  /** A match of `^\{(.+?)\}$`: braces around at least one character, none
      of them a newline (`.` does not match one). */
  predicate IsPlaceholder(part: string) {
    |part| >= 3 && part[0] == '{' && part[|part| - 1] == '}' && '\n' !in part[1..|part| - 1]
  }

  /** The submatch: what lies between the braces. */
  function PlaceholderName(part: string): (name: string)
    requires IsPlaceholder(part)
    ensures |name| == |part| - 2 && "{" + name + "}" == part
  {
    assert part == [part[0]] + part[1..|part| - 1] + [part[|part| - 1]];
    part[1..|part| - 1]
  }

  /** The capitalized literal segments, in order (empty segments skipped). */
  function ResourceNames(parts: seq<string>): seq<string> {
    if |parts| == 0 then []
    else
      var last := parts[|parts| - 1];
      ResourceNames(parts[..|parts| - 1]) + (if last != "" && !IsPlaceholder(last) then [Capitalize(last)] else [])
  }

  /** The capitalized placeholder names, in order. */
  function PlaceholderNames(parts: seq<string>): seq<string> {
    if |parts| == 0 then []
    else
      var last := parts[|parts| - 1];
      PlaceholderNames(parts[..|parts| - 1]) + (if last != "" && IsPlaceholder(last) then [Capitalize(PlaceholderName(last))] else [])
  }

  /** How often `n` occurs in `names`. */
  function Count(names: seq<string>, n: string): nat {
    if |names| == 0 then 0
    else Count(names[..|names| - 1], n) + (if names[|names| - 1] == n then 1 else 0)
  }

  /** The label of a placeholder name `x` met after the names `before`: its
      `c`-th occurrence, for `c` of 2 or more, carries `c` as a decimal
      suffix. */
  function Label(before: seq<string>, x: string): string {
    var c := Count(before, x) + 1;
    if c > 1 then x + NatToString(c) else x
  }

  /** Every placeholder name labelled in turn. */
  function Numbered(names: seq<string>): (r: seq<string>)
    ensures |r| == |names|
  {
    if |names| == 0 then []
    else Numbered(names[..|names| - 1]) + [Label(names[..|names| - 1], names[|names| - 1])]
  }

  /** The name of the segments `parts`. */
  function NameOf(verb: string, parts: seq<string>): string {
    var params := Numbered(PlaceholderNames(parts));
    Action(verb) + Concat(ResourceNames(parts)) + (if |params| > 0 then "By" + Join(params, "And") else "")
  }

  /** The name, stated over the whole route at once. */
  function FunctionName(verb: string, route: string): string {
    NameOf(verb, Split(route, '/'))
  }

  lemma NumberedAppend(names: seq<string>, x: string)
    ensures Numbered(names + [x]) == Numbered(names) + [Label(names, x)]
  {
    assert (names + [x])[..|names|] == names;
  }

  /** Each name's label depends only on the names before it. */
  lemma {:induction false} NumberedAt(names: seq<string>, k: nat)
    requires k < |names|
    ensures Numbered(names)[k] == Label(names[..k], names[k])
    decreases |names|
  {
    if k < |names| - 1 {
      var p := names[..|names| - 1];
      assert p[..k] == names[..k] && p[k] == names[k];
      NumberedAt(p, k);
    }
  }

  /** One more segment extends exactly one of the two name lists. */
  lemma NamesStep(parts: seq<string>, i: nat)
    requires i < |parts|
    ensures ResourceNames(parts[..i + 1]) == ResourceNames(parts[..i]) +
      (if parts[i] != "" && !IsPlaceholder(parts[i]) then [Capitalize(parts[i])] else [])
    ensures PlaceholderNames(parts[..i + 1]) == PlaceholderNames(parts[..i]) +
      (if parts[i] != "" && IsPlaceholder(parts[i]) then [Capitalize(PlaceholderName(parts[i]))] else [])
  {
    assert parts[..i + 1][..i] == parts[..i] && parts[..i + 1][i] == parts[i];
  }

  /** A missing key counts zero, as a Go map read does. */
  function CountIn(counts: map<string, nat>, n: string): nat {
    if n in counts then counts[n] else 0
  }

  /** Counting one more name. */
  lemma CountStep(names: seq<string>, x: string, n: string)
    ensures Count(names + [x], n) == Count(names, n) + (if x == n then 1 else 0)
  {
    assert (names + [x])[..|names|] == names;
  }

  /** `paramCount[name]++` keeps the counts those of the names seen. */
  lemma CountsStep(names: seq<string>, x: string, counts: map<string, nat>)
    requires forall n :: CountIn(counts, n) == Count(names, n)
    ensures forall n :: CountIn(counts[x := CountIn(counts, x) + 1], n) == Count(names + [x], n)
  {
    forall n ensures CountIn(counts[x := CountIn(counts, x) + 1], n) == Count(names + [x], n) {
      CountStep(names, x, n);
    }
  }

  /** The loop of `generateFunctionName`: one pass over the segments with a
      count per placeholder name. */
  method ClassifySegments(parts: seq<string>) returns (resources: seq<string>, parameters: seq<string>)
    ensures resources == ResourceNames(parts)
    ensures parameters == Numbered(PlaceholderNames(parts))
  {
    resources := [];
    parameters := [];
    var paramCount: map<string, nat> := map[];
    var i := 0;
    while i < |parts|
      invariant 0 <= i <= |parts|
      invariant resources == ResourceNames(parts[..i])
      invariant parameters == Numbered(PlaceholderNames(parts[..i]))
      invariant forall n :: CountIn(paramCount, n) == Count(PlaceholderNames(parts[..i]), n)
    {
      var part := parts[i];
      NamesStep(parts, i);
      var before := PlaceholderNames(parts[..i]);
      if part != "" && IsPlaceholder(part) {
        var paramName := Capitalize(PlaceholderName(part));
        assert PlaceholderNames(parts[..i + 1]) == before + [paramName];
        var c := CountIn(paramCount, paramName) + 1;
        NumberedAppend(before, paramName);
        CountsStep(before, paramName, paramCount);
        paramCount := paramCount[paramName := c];
        parameters := parameters + [Label(before, paramName)];
      } else {
        assert PlaceholderNames(parts[..i + 1]) == before;
        if part != "" {
          resources := resources + [Capitalize(part)];
        }
      }
      i := i + 1;
    }
    assert parts[..|parts|] == parts;
  }

  /** `generateFunctionName`: the action, the literal segments, then "By"
      and the labelled placeholders joined by "And" when there are any. */
  method GenerateFunctionName(verb: string, route: string) returns (name: string)
    ensures name == FunctionName(verb, route)
  {
    var parts := Split(route, '/');
    var resources, parameters := ClassifySegments(parts);
    var functionName := Action(verb) + Concat(resources);
    if |parameters| > 0 {
      functionName := functionName + "By" + Join(parameters, "And");
    }
    name := functionName;
  }

  /** Without placeholders there is no "By" part: the name is the action
      followed by the capitalized segments. */
  lemma NoPlaceholders(verb: string, route: string)
    requires forall i :: 0 <= i < |Split(route, '/')| ==> !IsPlaceholder(Split(route, '/')[i])
    ensures FunctionName(verb, route) == Action(verb) + Concat(ResourceNames(Split(route, '/')))
  {
    NoPlaceholderNames(Split(route, '/'));
  }

  lemma {:induction false} NoPlaceholderNames(parts: seq<string>)
    requires forall i :: 0 <= i < |parts| ==> !IsPlaceholder(parts[i])
    ensures PlaceholderNames(parts) == []
    decreases |parts|
  {
    if |parts| > 0 {
      NoPlaceholderNames(parts[..|parts| - 1]);
    }
  }

  /** The root route names no resource and no parameter: its two empty
      segments are skipped, and the name is the action alone. */
  lemma RootRoute(verb: string)
    ensures FunctionName(verb, "/") == Action(verb)
  {
    assert Split("", '/') == [""];
    SplitAppend("", "", '/');
    assert "" + ['/'] + "" == "/";
    var none: seq<string> := [];
    NamesAppend(none, "");
    NamesAppend(none + [""], "");
    assert none + [""] + [""] == ["", ""];
  }

  /** Repeated placeholder names are numbered from the second occurrence:
      `/group/{name}/items/{name}` has the parameters `Name` and `Name2`. */
  lemma RepeatedPlaceholder()
    ensures Numbered(["Name", "Name"]) == ["Name", "Name2"]
  {
    var names := ["Name", "Name"];
    assert names[..1] == ["Name"] && names[..1][..0] == [];
    assert Count(["Name"], "Name") == 1;
    assert NatToString(2) == "2";
    assert Numbered(["Name"]) == ["Name"];
    assert Label(["Name"], "Name") == "Name2";
  }

  /** A route of four separator-free segments splits into them, after an
      empty one for the leading slash. */
  lemma FourSegments(route: string, a: string, b: string, c: string, d: string)
    requires '/' !in a && '/' !in b && '/' !in c && '/' !in d
    requires route == "/" + a + "/" + b + "/" + c + "/" + d
    ensures Split(route, '/') == ["", a, b, c, d]
  {
    assert Split("", '/') == [""];
    SplitAppend("", a, '/');
    assert "" + ['/'] + a == "/" + a;
    SplitAppend("/" + a, b, '/');
    assert "/" + a + ['/'] + b == "/" + a + "/" + b;
    SplitAppend("/" + a + "/" + b, c, '/');
    assert "/" + a + "/" + b + ['/'] + c == "/" + a + "/" + b + "/" + c;
    SplitAppend("/" + a + "/" + b + "/" + c, d, '/');
    assert "/" + a + "/" + b + "/" + c + ['/'] + d == "/" + a + "/" + b + "/" + c + "/" + d;
  }

  /** One more segment, appended. */
  lemma NamesAppend(parts: seq<string>, x: string)
    ensures ResourceNames(parts + [x]) == ResourceNames(parts) + (if x != "" && !IsPlaceholder(x) then [Capitalize(x)] else [])
    ensures PlaceholderNames(parts + [x]) == PlaceholderNames(parts) + (if x != "" && IsPlaceholder(x) then [Capitalize(PlaceholderName(x))] else [])
  {
    assert (parts + [x])[..|parts|] == parts;
  }

  lemma GroupItemsWords()
    ensures IsPlaceholder("{name}") && Capitalize(PlaceholderName("{name}")) == "Name"
    ensures !IsPlaceholder("group") && Capitalize("group") == "Group"
    ensures !IsPlaceholder("items") && Capitalize("items") == "Items"
  {
    assert PlaceholderName("{name}") == "name";
  }

  lemma GroupItemsNames(parts: seq<string>)
    requires parts == ["", "group", "{name}", "items", "{name}"]
    ensures ResourceNames(parts) == ["Group", "Items"]
    ensures PlaceholderNames(parts) == ["Name", "Name"]
  {
    GroupItemsWords();
    var p0: seq<string> := [];
    NamesAppend(p0, "");
    var p1 := p0 + [""];
    NamesAppend(p1, "group");
    var p2 := p1 + ["group"];
    NamesAppend(p2, "{name}");
    var p3 := p2 + ["{name}"];
    NamesAppend(p3, "items");
    var p4 := p3 + ["items"];
    NamesAppend(p4, "{name}");
    assert p4 + ["{name}"] == parts;
  }

  lemma GroupItemsNameOf()
    ensures NameOf("GET", ["", "group", "{name}", "items", "{name}"]) == "GetGroupItemsByNameAndName2"
  {
    var parts := ["", "group", "{name}", "items", "{name}"];
    GroupItemsNames(parts);
    RepeatedPlaceholder();
    GroupItemsJoin();
    GroupItemsConcat();
    GroupItemsAction();
  }

  lemma GroupItemsJoin()
    ensures Join(["Name", "Name2"], "And") == "NameAndName2"
  {
    var ps := ["Name", "Name2"];
    assert ps[1..] == ["Name2"];
    assert Join(ps[1..], "And") == "Name2";
    assert Join(ps, "And") == "Name" + "And" + "Name2";
  }

  lemma GroupItemsConcat()
    ensures Concat(["Group", "Items"]) == "GroupItems"
  {
    var ps := ["Group", "Items"];
    assert ps[1..] == ["Items"] && ps[1..][1..] == [];
    assert Concat(ps[1..]) == "Items" + "";
    assert Concat(ps) == "Group" + "Items";
  }

  lemma GroupItemsAction()
    ensures Action("GET") + "GroupItems" + ("By" + "NameAndName2") == "GetGroupItemsByNameAndName2"
  {
  }

  lemma GroupItemsSegments()
    ensures Split("/group/{name}/items/{name}", '/') == ["", "group", "{name}", "items", "{name}"]
  {
    FourSegments("/group/{name}/items/{name}", "group", "{name}", "items", "{name}");
  }

  /** `/group/{name}/items/{name}` read with GET: literal segments in order,
      then both placeholders, the second numbered. */
  lemma GroupItemsExample()
    ensures FunctionName("GET", "/group/{name}/items/{name}") == "GetGroupItemsByNameAndName2"
  {
    GroupItemsSegments();
    GroupItemsNameOf();
  }
}
