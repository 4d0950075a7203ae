/** helpers.go: middleware composition and the merging of `Defaults`. */
module Helpers {
  import opened Wrappers
  import opened Values
  import opened Handlers
  import opened ContentTypes
  import GoMaps
  import RR = RequestResponse

  /** `Chain(middlewares...)`: the returned `Use`. */
  function Chain(middlewares: seq<Use>): Use {
    Chained(middlewares)
  }

  /** What the function returned by `Chain` does with `finalHandler`: wrap
      it with the middlewares from the last to the first. */
  method RunChain(middlewares: seq<Use>, finalHandler: Handler) returns (h: Handler)
    ensures h == Apply(Chain(middlewares), finalHandler)
  {
    h := finalHandler;
    var i := |middlewares|;
    while i > 0
      invariant 0 <= i <= |middlewares|
      invariant h == ApplyAll(middlewares[i..], finalHandler)
    {
      i := i - 1;
      assert middlewares[i..][1..] == middlewares[i + 1..];
      h := Apply(middlewares[i], h);
    }
  }

  /** An empty chain returns the handler unchanged; otherwise the first
      middleware is outermost. */
  lemma ChainOrder(middlewares: seq<Use>, h: Handler)
    ensures |middlewares| == 0 ==> Apply(Chain(middlewares), h) == h
    ensures |middlewares| > 0 ==>
      Apply(Chain(middlewares), h) == Apply(middlewares[0], Apply(Chain(middlewares[1..]), h))
    ensures |middlewares| == 1 ==> Apply(Chain(middlewares), h) == Apply(middlewares[0], h)
  {
    if |middlewares| == 1 {
      assert middlewares[1..] == [];
    }
  }

  /** Chaining is composition: the chain of `a + b` applies the chain of
      `b` first and the chain of `a` around it. In particular
      `Chain(Chain(a), b)` (how middleware accumulates along a route list)
      applies `a` outside `b`. */
  lemma {:induction false} ChainAppend(a: seq<Use>, b: seq<Use>, h: Handler)
    ensures Apply(Chain(a + b), h) == Apply(Chain(a), Apply(Chain(b), h))
    ensures Apply(Chain([Chain(a), Chain(b)]), h) == Apply(Chain(a), Apply(Chain(b), h))
    decreases |a|
  {
    if |a| == 0 {
      assert a + b == b;
    } else {
      assert (a + b)[0] == a[0] && (a + b)[1..] == a[1..] + b;
      ChainAppend(a[1..], b, h);
    }
    var pair := [Chain(a), Chain(b)];
    assert pair[1..] == [Chain(b)] && pair[1..][1..] == [];
    assert ApplyAll(pair[1..], h) == Apply(Chain(b), h);
  }

  /** `Defaults` (web.go). */
  datatype Defaults = Defaults(
    query: GoMaps.GoMap<string, RR.Field>,
    header: GoMaps.GoMap<string, RR.Field>,
    cookie: GoMaps.GoMap<string, RR.Field>,
    body: RR.Body,
    responses: RR.Responses)

  /** The accumulator `mergeDefaults` starts from: empty maps, a zero body,
      zero responses. */
  function EmptyDefaults(): Defaults {
    Defaults([], [], [], RR.Body("", false, VNil), RR.EmptyResponses())
  }

  /** One iteration of `mergeDefaults`' loop, field by field. */
  function MergeStep(merged: Defaults, def: Defaults): (r: Defaults)
    ensures r.header == merged.header && r.body.optional == merged.body.optional
  {
    Defaults(
      MergeQuery(merged.query, def),
      merged.header,
      MergeCookie(merged.cookie, def),
      MergeBody(merged.body, def.body),
      RR.SetAll(merged.responses, RR.Items(def.responses)))
  }

  /** The body: description and value are replaced only by a non-empty
      description and a non-nil value; `Optional` is never copied. */
  function MergeBody(merged: RR.Body, def: RR.Body): (r: RR.Body)
    ensures r.optional == merged.optional
  {
    var b := if |def.description| > 0 then merged.(description := def.description) else merged;
    if def.value != VNil then b.(value := def.value) else b
  }

  /** The cookie map: the default's cookies are copied, and copied again
      when the default has headers. */
  function MergeCookie(merged: GoMaps.GoMap<string, RR.Field>, def: Defaults): GoMaps.GoMap<string, RR.Field> {
    var c := if |def.cookie| > 0 then GoMaps.PutAll(merged, def.cookie) else merged;
    if |def.header| > 0 then GoMaps.PutAll(c, def.cookie) else c
  }

  function MergeQuery(merged: GoMaps.GoMap<string, RR.Field>, def: Defaults): GoMaps.GoMap<string, RR.Field> {
    if |def.query| > 0 then GoMaps.PutAll(merged, def.query) else merged
  }

  /** `mergeDefaults(defaults...)`. The header map always comes out empty
      and the body is never optional. */
  function MergeDefaults(defaults: seq<Defaults>): (merged: Defaults)
    ensures merged.header == [] && !merged.body.optional
    decreases |defaults|
  {
    if |defaults| == 0 then EmptyDefaults()
    else MergeStep(MergeDefaults(defaults[..|defaults| - 1]), defaults[|defaults| - 1])
  }

  // Reference definitions: the value of the last default that supplies one.

  function LastQuery(defaults: seq<Defaults>, k: string): Option<RR.Field>
    decreases |defaults|
  {
    if |defaults| == 0 then None
    else if k in GoMaps.Domain(defaults[|defaults| - 1].query) then GoMaps.Lookup(defaults[|defaults| - 1].query, k)
    else LastQuery(defaults[..|defaults| - 1], k)
  }

  function LastCookie(defaults: seq<Defaults>, k: string): Option<RR.Field>
    decreases |defaults|
  {
    if |defaults| == 0 then None
    else if k in GoMaps.Domain(defaults[|defaults| - 1].cookie) then GoMaps.Lookup(defaults[|defaults| - 1].cookie, k)
    else LastCookie(defaults[..|defaults| - 1], k)
  }

  function LastDescription(defaults: seq<Defaults>): string
    decreases |defaults|
  {
    if |defaults| == 0 then ""
    else if |defaults[|defaults| - 1].body.description| > 0 then defaults[|defaults| - 1].body.description
    else LastDescription(defaults[..|defaults| - 1])
  }

  function LastBodyValue(defaults: seq<Defaults>): Value
    decreases |defaults|
  {
    if |defaults| == 0 then VNil
    else if defaults[|defaults| - 1].body.value != VNil then defaults[|defaults| - 1].body.value
    else LastBodyValue(defaults[..|defaults| - 1])
  }

  /** The last non-nil value a default holds in status slot `s`, for the
      statuses `Iterate` yields (0 standing for `Default`). */
  function LastResponse(defaults: seq<Defaults>, s: int): Any
    decreases |defaults|
  {
    if |defaults| == 0 then Plain(VNil)
    else
      var d := defaults[|defaults| - 1].responses;
      var v := if s == 0 then d.default else d.Slot(s);
      if (s == 0 || (s in RR.Settable && s != 400)) && !v.IsNil() then v
      else LastResponse(defaults[..|defaults| - 1], s)
  }

  /** Go maps have distinct keys. */
  predicate WellFormed(d: Defaults) {
    GoMaps.DistinctKeys(d.query) && GoMaps.DistinctKeys(d.header) && GoMaps.DistinctKeys(d.cookie)
  }

  /** One merge step on the maps: a key of the default's map takes the
      default's value, any other key keeps its value. */
  lemma MergeMapsStep(merged: Defaults, def: Defaults, k: string)
    requires WellFormed(def)
    ensures GoMaps.Lookup(MergeQuery(merged.query, def), k) ==
      if k in GoMaps.Domain(def.query) then GoMaps.Lookup(def.query, k) else GoMaps.Lookup(merged.query, k)
    ensures GoMaps.Lookup(MergeCookie(merged.cookie, def), k) ==
      if k in GoMaps.Domain(def.cookie) then GoMaps.Lookup(def.cookie, k) else GoMaps.Lookup(merged.cookie, k)
  {
    GoMaps.PutAllOverrides(merged.query, def.query, k);
    GoMaps.PutAllOverrides(merged.cookie, def.cookie, k);
    var c := if |def.cookie| > 0 then GoMaps.PutAll(merged.cookie, def.cookie) else merged.cookie;
    GoMaps.PutAllOverrides(c, def.cookie, k);
    if |def.cookie| == 0 {
      assert k !in GoMaps.Domain(def.cookie);
    }
    if |def.query| == 0 {
      assert k !in GoMaps.Domain(def.query);
    }
  }

  /** Query and cookie entries merge key by key, the later default winning;
      the header branch copying the cookies again changes no lookup. */
  lemma {:induction false} MergeMapsSpec(defaults: seq<Defaults>, k: string)
    requires forall i :: 0 <= i < |defaults| ==> WellFormed(defaults[i])
    ensures GoMaps.Lookup(MergeDefaults(defaults).query, k) == LastQuery(defaults, k)
    ensures GoMaps.Lookup(MergeDefaults(defaults).cookie, k) == LastCookie(defaults, k)
    decreases |defaults|
  {
    if |defaults| > 0 {
      var prefix := defaults[..|defaults| - 1];
      MergeMapsSpec(prefix, k);
      assert MergeDefaults(defaults) == MergeStep(MergeDefaults(prefix), defaults[|defaults| - 1]);
      MergeMapsStep(MergeDefaults(prefix), defaults[|defaults| - 1], k);
    }
  }

  /** The body description and value come from the last default that sets
      them. */
  lemma {:induction false} MergeBodySpec(defaults: seq<Defaults>)
    ensures MergeDefaults(defaults).body.description == LastDescription(defaults)
    ensures MergeDefaults(defaults).body.value == LastBodyValue(defaults)
    decreases |defaults|
  {
    if |defaults| > 0 {
      var prefix := defaults[..|defaults| - 1];
      MergeBodySpec(prefix);
      assert MergeDefaults(defaults) == MergeStep(MergeDefaults(prefix), defaults[|defaults| - 1]);
    }
  }

  /** Each response slot holds the last non-nil value a default gives it;
      slot 400 is never carried over and stays nil. */
  lemma {:induction false} MergeResponsesSpec(defaults: seq<Defaults>, s: int)
    ensures MergeDefaults(defaults).responses.default == LastResponse(defaults, 0)
    ensures s != 0 ==> MergeDefaults(defaults).responses.Slot(s) == LastResponse(defaults, s)
    ensures MergeDefaults(defaults).responses.Slot(400).IsNil()
    decreases |defaults|
  {
    if |defaults| > 0 {
      var prefix := defaults[..|defaults| - 1];
      var def := defaults[|defaults| - 1];
      MergeResponsesSpec(prefix, s);
      MergeResponsesSpec(prefix, 400);
      var before := MergeDefaults(prefix).responses;
      assert MergeDefaults(defaults) == MergeStep(MergeDefaults(prefix), def);
      RR.SetAllItemsIsOverlay(before, def.responses, s);
      RR.SettableFacts();
    }
  }
}
