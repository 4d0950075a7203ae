/** The request and response descriptions an `Api` carries
    (request_response.go): parameter maps, the body, and `Responses` with
    one `any` slot per HTTP status, its `Set` switch and its `Iterate`
    sequence. */
module RequestResponse {
  import opened Values
  import opened ContentTypes
  import GoMaps
  import Iteration

  /** `PathParam`. */
  datatype PathParam = PathParam(description: string, value: Value)

  /** `QueryParam`, `HeaderField` and `CookieField`, which share a shape. */
  datatype Field = Field(optional: bool, description: string, value: Value)

  /** `Body`. */
  datatype Body = Body(description: string, optional: bool, value: Value)

  /** `Parameter`: the four parameter maps and the body. A nil map and an
      empty one behave alike everywhere they are read. */
  datatype Parameter = Parameter(
    query: GoMaps.GoMap<string, Field>,
    path: GoMaps.GoMap<string, PathParam>,
    header: GoMaps.GoMap<string, Field>,
    cookie: GoMaps.GoMap<string, Field>,
    body: Body)

  /** The 1xx statuses `Set` has a case for. */
  const Informational: set<int> := {100, 101, 102, 103}

  /** The 2xx statuses `Set` has a case for. */
  const Successful: set<int> := {200, 201, 202, 203, 204, 205, 206, 207, 208, 226}

  /** The 3xx statuses `Set` has a case for. */
  const Redirection: set<int> := {300, 301, 302, 303, 304, 305, 307, 308}

  /** The 4xx statuses `Set` has a case for. */
  const ClientError: set<int> := {400, 401, 402, 403, 404, 405, 406, 407, 408, 409, 410, 411, 412, 413, 414, 415, 416, 417, 418, 421, 422, 423, 424, 425, 426, 428, 429, 431, 451}

  /** The 5xx statuses `Set` has a case for. */
  const ServerError: set<int> := {500, 501, 502, 503, 504, 505, 506, 507, 508, 510, 511}

  /** Every status `Set` has a case for (the `0` case for `Default`
      aside): the status fields of `Responses`. */
  const Settable: set<int> := Informational + Successful + Redirection + ClientError + ServerError

  /** The statuses `Iterate` visits after `Default`, in its order (the
      alphabetical order of the Go field names), eight to a row.
      `StatusBadRequest` (400) is missing, and `StatusServiceUnavailable`
      (503) is visited twice in a row. */
  const IterationRow0: seq<int> := [202, 208, 502, 409, 100, 201, 103, 417]
  const IterationRow1: seq<int> := [424, 403, 302, 504, 410, 505, 226, 507]
  const IterationRow2: seq<int> := [500, 411, 423, 508, 405, 421, 301, 207]
  const IterationRow3: seq<int> := [300, 511, 204, 203, 406, 510, 404, 501]
  const IterationRow4: seq<int> := [304, 200, 206, 402, 308, 412, 428, 102]
  const IterationRow5: seq<int> := [407, 413, 431, 408, 414, 416, 205, 303]
  const IterationRow6: seq<int> := [503, 503, 101, 418, 307, 425, 429, 401]
  const IterationRow7: seq<int> := [451, 422, 415, 426, 305, 506]
  const IterationOrder: seq<int> :=
    IterationRow0 + IterationRow1 + IterationRow2 + IterationRow3 + IterationRow4 + IterationRow5 + IterationRow6 + IterationRow7

  /** `Responses`: the `Default` slot and the status slots. A status absent
      from `slots` holds nil. */
  datatype Responses = Responses(default: Any, slots: map<int, Any>)
  {
    function Slot(status: int): Any {
      if status in slots then slots[status] else Plain(VNil)
    }
  }

  /** The zero `Responses{}`: every slot nil. */
  function EmptyResponses(): (r: Responses)
    ensures r.default.IsNil() && forall s :: r.Slot(s).IsNil()
  {
    Responses(Plain(VNil), map[])
  }

  /** `Responses.Set`: status 0 assigns `Default`, a status with a case
      assigns exactly its slot, and any other status changes nothing. */
  function Set(r: Responses, status: int, value: Any): (r': Responses)
    ensures status == 0 ==> r'.default == value && forall s :: r'.Slot(s) == r.Slot(s)
    ensures status in Settable ==>
      (r'.default == r.default && r'.Slot(status) == value && forall s :: s != status ==> r'.Slot(s) == r.Slot(s))
    ensures status != 0 && status !in Settable ==> r' == r
  {
    SettableFacts();
    if status == 0 then r.(default := value)
    else if status in Settable then r.(slots := r.slots[status := value])
    else r
  }

  /** The non-nil slots among `order`, in that order, each with its status. */
  function PresentSlots(r: Responses, order: seq<int>): seq<(int, Any)> {
    if |order| == 0 then []
    else
      (if !r.Slot(order[0]).IsNil() then [(order[0], r.Slot(order[0]))] else [])
      + PresentSlots(r, order[1..])
  }

  /** Everything `Iterate` yields to a consumer that never stops. */
  function Items(r: Responses): seq<(int, Any)> {
    (if !r.default.IsNil() then [(0, r.default)] else []) + PresentSlots(r, IterationOrder)
  }

  /** `Responses.Iterate` with a consumer that may stop early. */
  function Iterate(r: Responses, keepGoing: (nat, (int, Any)) -> bool): (d: seq<(int, Any)>)
    ensures |d| <= |Items(r)| && d == Items(r)[..|d|]
  {
    Iteration.Deliver(Items(r), keepGoing)
  }

  /** How often `x` occurs in `s`. */
  function Occurrences(s: seq<int>, x: int): nat {
    if |s| == 0 then 0 else (if s[0] == x then 1 else 0) + Occurrences(s[1..], x)
  }

  /** The statuses of a list of yielded items. */
  function Statuses(items: seq<(int, Any)>): (ss: seq<int>)
    ensures |ss| == |items| && forall i :: 0 <= i < |items| ==> ss[i] == items[i].0
  {
    seq(|items|, i requires 0 <= i < |items| => items[i].0)
  }

  lemma {:induction false} OccurrencesAppend(a: seq<int>, b: seq<int>, x: int)
    ensures Occurrences(a + b, x) == Occurrences(a, x) + Occurrences(b, x)
  {
    if |a| > 0 {
      assert (a + b)[0] == a[0];
      assert (a + b)[1..] == a[1..] + b;
      OccurrencesAppend(a[1..], b, x);
    } else {
      assert a + b == b;
    }
  }

  lemma {:induction false} OccurrencesAbsent(a: seq<int>, x: int)
    requires x !in a
    ensures Occurrences(a, x) == 0
  {
    if |a| > 0 {
      OccurrencesAbsent(a[1..], x);
    }
  }

  lemma {:induction false} OccurrencesPositive(a: seq<int>, x: int)
    ensures Occurrences(a, x) > 0 <==> x in a
  {
    if |a| > 0 {
      OccurrencesPositive(a[1..], x);
      assert x in a <==> a[0] == x || x in a[1..] by {
        assert a == [a[0]] + a[1..];
      }
    }
  }

  /** The `0` case is not a status field, 400 and 503 are. */
  lemma SettableFacts()
    ensures 0 !in Settable && 400 in Settable && 503 in Settable
  {
    ZeroNotSettable();
    assert 400 in ClientError;
    assert 503 in ServerError;
  }

  lemma ZeroNotSettable()
    ensures 0 !in Settable
  {
    ZeroNotListedLow();
    ZeroNotListedHigh();
  }

  lemma ZeroNotListedLow()
    ensures 0 !in Informational && 0 !in Successful && 0 !in Redirection
  {
  }

  lemma ZeroNotListedHigh()
    ensures 0 !in ClientError && 0 !in ServerError
  {
  }

  // The facts about the iteration table are proved row by row: each row is
  // small enough for the solver to enumerate.

  lemma IterationRowMembers0(x: int)
    ensures x in IterationRow0 <==> x in {100, 103, 201, 202, 208, 409, 417, 502}
  {
  }

  lemma IterationRowCount0(x: int)
    ensures Occurrences(IterationRow0, x) == (if x in {100, 103, 201, 202, 208, 409, 417, 502} then 1 else 0)
  {
    IterationRowMembers0(x);
    if x !in IterationRow0 {
      OccurrencesAbsent(IterationRow0, x);
    }
  }

  lemma IterationRowMembers1(x: int)
    ensures x in IterationRow1 <==> x in {226, 302, 403, 410, 424, 504, 505, 507}
  {
  }

  lemma IterationRowCount1(x: int)
    ensures Occurrences(IterationRow1, x) == (if x in {226, 302, 403, 410, 424, 504, 505, 507} then 1 else 0)
  {
    IterationRowMembers1(x);
    if x !in IterationRow1 {
      OccurrencesAbsent(IterationRow1, x);
    }
  }

  lemma IterationRowMembers2(x: int)
    ensures x in IterationRow2 <==> x in {207, 301, 405, 411, 421, 423, 500, 508}
  {
  }

  lemma IterationRowCount2(x: int)
    ensures Occurrences(IterationRow2, x) == (if x in {207, 301, 405, 411, 421, 423, 500, 508} then 1 else 0)
  {
    IterationRowMembers2(x);
    if x !in IterationRow2 {
      OccurrencesAbsent(IterationRow2, x);
    }
  }

  lemma IterationRowMembers3(x: int)
    ensures x in IterationRow3 <==> x in {203, 204, 300, 404, 406, 501, 510, 511}
  {
  }

  lemma IterationRowCount3(x: int)
    ensures Occurrences(IterationRow3, x) == (if x in {203, 204, 300, 404, 406, 501, 510, 511} then 1 else 0)
  {
    IterationRowMembers3(x);
    if x !in IterationRow3 {
      OccurrencesAbsent(IterationRow3, x);
    }
  }

  lemma IterationRowMembers4(x: int)
    ensures x in IterationRow4 <==> x in {102, 200, 206, 304, 308, 402, 412, 428}
  {
  }

  lemma IterationRowCount4(x: int)
    ensures Occurrences(IterationRow4, x) == (if x in {102, 200, 206, 304, 308, 402, 412, 428} then 1 else 0)
  {
    IterationRowMembers4(x);
    if x !in IterationRow4 {
      OccurrencesAbsent(IterationRow4, x);
    }
  }

  lemma IterationRowMembers5(x: int)
    ensures x in IterationRow5 <==> x in {205, 303, 407, 408, 413, 414, 416, 431}
  {
  }

  lemma IterationRowCount5(x: int)
    ensures Occurrences(IterationRow5, x) == (if x in {205, 303, 407, 408, 413, 414, 416, 431} then 1 else 0)
  {
    IterationRowMembers5(x);
    if x !in IterationRow5 {
      OccurrencesAbsent(IterationRow5, x);
    }
  }

  lemma IterationRowMembers6(x: int)
    ensures x in IterationRow6 <==> x in {101, 307, 401, 418, 425, 429, 503}
  {
  }

  lemma IterationRowCount6(x: int)
    ensures Occurrences(IterationRow6, x) == (if x == 503 then 2 else if x in {101, 307, 401, 418, 425, 429, 503} then 1 else 0)
  {
    IterationRowMembers6(x);
    if x !in IterationRow6 {
      OccurrencesAbsent(IterationRow6, x);
    }
  }

  lemma IterationRowMembers7(x: int)
    ensures x in IterationRow7 <==> x in {305, 415, 422, 426, 451, 506}
  {
  }

  lemma IterationRowCount7(x: int)
    ensures Occurrences(IterationRow7, x) == (if x in {305, 415, 422, 426, 451, 506} then 1 else 0)
  {
    IterationRowMembers7(x);
    if x !in IterationRow7 {
      OccurrencesAbsent(IterationRow7, x);
    }
  }

  lemma IterationOrderSum(x: int)
    ensures Occurrences(IterationOrder, x) ==
      Occurrences(IterationRow0, x) + Occurrences(IterationRow1, x) + Occurrences(IterationRow2, x) + Occurrences(IterationRow3, x) + Occurrences(IterationRow4, x) + Occurrences(IterationRow5, x) + Occurrences(IterationRow6, x) + Occurrences(IterationRow7, x)
  {
    OccurrencesAppend(IterationRow0, IterationRow1, x);
    OccurrencesAppend(IterationRow0 + IterationRow1, IterationRow2, x);
    OccurrencesAppend(IterationRow0 + IterationRow1 + IterationRow2, IterationRow3, x);
    OccurrencesAppend(IterationRow0 + IterationRow1 + IterationRow2 + IterationRow3, IterationRow4, x);
    OccurrencesAppend(IterationRow0 + IterationRow1 + IterationRow2 + IterationRow3 + IterationRow4, IterationRow5, x);
    OccurrencesAppend(IterationRow0 + IterationRow1 + IterationRow2 + IterationRow3 + IterationRow4 + IterationRow5, IterationRow6, x);
    OccurrencesAppend(IterationRow0 + IterationRow1 + IterationRow2 + IterationRow3 + IterationRow4 + IterationRow5 + IterationRow6, IterationRow7, x);
  }

  lemma CountInRow0(x: int)
    requires x in {100, 103, 201, 202, 208, 409, 417, 502}
    ensures Occurrences(IterationOrder, x) == (if x == 503 then 2 else 1) && x in Settable && x != 400
  {
    IterationOrderSum(x);
    IterationRowCount0(x);
    IterationRowCount1(x);
    IterationRowCount2(x);
    IterationRowCount3(x);
    IterationRowCount4(x);
    IterationRowCount5(x);
    IterationRowCount6(x);
    IterationRowCount7(x);
  }

  lemma CountInRow1(x: int)
    requires x in {226, 302, 403, 410, 424, 504, 505, 507}
    ensures Occurrences(IterationOrder, x) == (if x == 503 then 2 else 1) && x in Settable && x != 400
  {
    IterationOrderSum(x);
    IterationRowCount0(x);
    IterationRowCount1(x);
    IterationRowCount2(x);
    IterationRowCount3(x);
    IterationRowCount4(x);
    IterationRowCount5(x);
    IterationRowCount6(x);
    IterationRowCount7(x);
  }

  lemma CountInRow2(x: int)
    requires x in {207, 301, 405, 411, 421, 423, 500, 508}
    ensures Occurrences(IterationOrder, x) == (if x == 503 then 2 else 1) && x in Settable && x != 400
  {
    IterationOrderSum(x);
    IterationRowCount0(x);
    IterationRowCount1(x);
    IterationRowCount2(x);
    IterationRowCount3(x);
    IterationRowCount4(x);
    IterationRowCount5(x);
    IterationRowCount6(x);
    IterationRowCount7(x);
  }

  lemma CountInRow3(x: int)
    requires x in {203, 204, 300, 404, 406, 501, 510, 511}
    ensures Occurrences(IterationOrder, x) == (if x == 503 then 2 else 1) && x in Settable && x != 400
  {
    IterationOrderSum(x);
    IterationRowCount0(x);
    IterationRowCount1(x);
    IterationRowCount2(x);
    IterationRowCount3(x);
    IterationRowCount4(x);
    IterationRowCount5(x);
    IterationRowCount6(x);
    IterationRowCount7(x);
  }

  lemma CountInRow4(x: int)
    requires x in {102, 200, 206, 304, 308, 402, 412, 428}
    ensures Occurrences(IterationOrder, x) == (if x == 503 then 2 else 1) && x in Settable && x != 400
  {
    IterationOrderSum(x);
    IterationRowCount0(x);
    IterationRowCount1(x);
    IterationRowCount2(x);
    IterationRowCount3(x);
    IterationRowCount4(x);
    IterationRowCount5(x);
    IterationRowCount6(x);
    IterationRowCount7(x);
  }

  lemma CountInRow5(x: int)
    requires x in {205, 303, 407, 408, 413, 414, 416, 431}
    ensures Occurrences(IterationOrder, x) == (if x == 503 then 2 else 1) && x in Settable && x != 400
  {
    IterationOrderSum(x);
    IterationRowCount0(x);
    IterationRowCount1(x);
    IterationRowCount2(x);
    IterationRowCount3(x);
    IterationRowCount4(x);
    IterationRowCount5(x);
    IterationRowCount6(x);
    IterationRowCount7(x);
  }

  lemma CountInRow6(x: int)
    requires x in {101, 307, 401, 418, 425, 429, 503}
    ensures Occurrences(IterationOrder, x) == (if x == 503 then 2 else 1) && x in Settable && x != 400
  {
    IterationOrderSum(x);
    IterationRowCount0(x);
    IterationRowCount1(x);
    IterationRowCount2(x);
    IterationRowCount3(x);
    IterationRowCount4(x);
    IterationRowCount5(x);
    IterationRowCount6(x);
    IterationRowCount7(x);
  }

  lemma CountInRow7(x: int)
    requires x in {305, 415, 422, 426, 451, 506}
    ensures Occurrences(IterationOrder, x) == (if x == 503 then 2 else 1) && x in Settable && x != 400
  {
    IterationOrderSum(x);
    IterationRowCount0(x);
    IterationRowCount1(x);
    IterationRowCount2(x);
    IterationRowCount3(x);
    IterationRowCount4(x);
    IterationRowCount5(x);
    IterationRowCount6(x);
    IterationRowCount7(x);
  }

  lemma AbsentFromIteration(x: int)
    requires x !in IterationOrder
    ensures !(x in Settable && x != 400)
  {
    IterationRowMembers0(x);
    IterationRowMembers1(x);
    IterationRowMembers2(x);
    IterationRowMembers3(x);
    IterationRowMembers4(x);
    IterationRowMembers5(x);
    IterationRowMembers6(x);
    IterationRowMembers7(x);
  }

  /** The iteration table visits every status `Set` has a case for exactly
      once, except 400, which it never visits, and 503, which it visits
      twice; it visits nothing else. */
  lemma IterationOccurrences(x: int)
    ensures Occurrences(IterationOrder, x) ==
      if x == 503 then 2 else if x in Settable && x != 400 then 1 else 0
    ensures x in IterationOrder <==> x in Settable && x != 400
  {
    IterationRowMembers0(x);
    IterationRowMembers1(x);
    IterationRowMembers2(x);
    IterationRowMembers3(x);
    IterationRowMembers4(x);
    IterationRowMembers5(x);
    IterationRowMembers6(x);
    IterationRowMembers7(x);
    if x in {100, 103, 201, 202, 208, 409, 417, 502} {
      CountInRow0(x);
    }
    else if x in {226, 302, 403, 410, 424, 504, 505, 507} {
      CountInRow1(x);
    }
    else if x in {207, 301, 405, 411, 421, 423, 500, 508} {
      CountInRow2(x);
    }
    else if x in {203, 204, 300, 404, 406, 501, 510, 511} {
      CountInRow3(x);
    }
    else if x in {102, 200, 206, 304, 308, 402, 412, 428} {
      CountInRow4(x);
    }
    else if x in {205, 303, 407, 408, 413, 414, 416, 431} {
      CountInRow5(x);
    }
    else if x in {101, 307, 401, 418, 425, 429, 503} {
      CountInRow6(x);
    }
    else if x in {305, 415, 422, 426, 451, 506} {
      CountInRow7(x);
    }
    else {
      AbsentFromIteration(x);
      OccurrencesAbsent(IterationOrder, x);
    }
    OccurrencesPositive(IterationOrder, x);
  }

  /** Filtering the slots: each yielded item is a non-nil slot of a status
      in `order` with that slot's value, and every status whose slot is
      non-nil is yielded as often as it occurs in `order`. */
  lemma {:induction false} PresentSlotsExact(r: Responses, order: seq<int>)
    ensures forall i :: 0 <= i < |PresentSlots(r, order)| ==>
      (PresentSlots(r, order)[i].0 in order
       && PresentSlots(r, order)[i].1 == r.Slot(PresentSlots(r, order)[i].0)
       && !PresentSlots(r, order)[i].1.IsNil())
    ensures forall s ::
      Occurrences(Statuses(PresentSlots(r, order)), s) == (if r.Slot(s).IsNil() then 0 else Occurrences(order, s))
  {
    if |order| > 0 {
      PresentSlotsExact(r, order[1..]);
      var x := order[0];
      var head := if !r.Slot(x).IsNil() then [(x, r.Slot(x))] else [];
      var rest := PresentSlots(r, order[1..]);
      assert PresentSlots(r, order) == head + rest;
      assert Statuses(head + rest) == Statuses(head) + Statuses(rest);
      forall i | 0 <= i < |head + rest|
        ensures (head + rest)[i].0 in order && (head + rest)[i].1 == r.Slot((head + rest)[i].0)
          && !(head + rest)[i].1.IsNil()
      {
        if i >= |head| {
          assert (head + rest)[i] == rest[i - |head|];
          assert rest[i - |head|].0 in order[1..];
        }
      }
      forall s
        ensures Occurrences(Statuses(PresentSlots(r, order)), s)
          == (if r.Slot(s).IsNil() then 0 else Occurrences(order, s))
      {
        OccurrencesAppend(Statuses(head), Statuses(rest), s);
        if |head| == 1 {
          assert Statuses(head)[1..] == [];
        }
      }
    }
  }

  /** How often `Iterate` yields a status: once when its slot is non-nil,
      except 503 (twice) and 400 and every status without a field (never). */
  lemma ItemsCount(r: Responses, s: int)
    requires s != 0
    ensures Occurrences(Statuses(Items(r)), s) ==
      if r.Slot(s).IsNil() || s == 400 || s !in Settable then 0
      else if s == 503 then 2
      else 1
  {
    var head := if !r.default.IsNil() then [(0, r.default)] else [];
    var rest := PresentSlots(r, IterationOrder);
    assert Statuses(Items(r)) == Statuses(head) + Statuses(rest);
    OccurrencesAppend(Statuses(head), Statuses(rest), s);
    if |head| == 1 {
      assert Statuses(head)[1..] == [];
    }
    PresentSlotsExact(r, IterationOrder);
    IterationOccurrences(s);
  }

  /** `Default` comes first, once, when it is non-nil, and never otherwise;
      every other item carries its slot's current, non-nil value. */
  lemma ItemsShape(r: Responses)
    ensures !r.default.IsNil() ==> Items(r)[0] == (0, r.default)
    ensures Occurrences(Statuses(Items(r)), 0) == (if r.default.IsNil() then 0 else 1)
    ensures forall i :: 0 <= i < |Items(r)| && Items(r)[i].0 != 0 ==>
      (Items(r)[i].1 == r.Slot(Items(r)[i].0) && !Items(r)[i].1.IsNil())
  {
    var head := if !r.default.IsNil() then [(0, r.default)] else [];
    var rest := PresentSlots(r, IterationOrder);
    assert Statuses(Items(r)) == Statuses(head) + Statuses(rest);
    OccurrencesAppend(Statuses(head), Statuses(rest), 0);
    if |head| == 1 {
      assert Statuses(head)[1..] == [];
    }
    PresentSlotsExact(r, IterationOrder);
    IterationOccurrences(0);
    SettableFacts();
    forall i | 0 <= i < |Items(r)| && Items(r)[i].0 != 0
      ensures Items(r)[i].1 == r.Slot(Items(r)[i].0) && !Items(r)[i].1.IsNil()
    {
      assert Items(r)[i] == rest[i - |head|];
    }
  }

  /** Applying `Set` to each item in turn, as a `for status, value := range
      Iterate()` loop around `Set` does. */
  function SetAll(r: Responses, items: seq<(int, Any)>): Responses
    decreases |items|
  {
    if |items| == 0 then r else SetAll(Set(r, items[0].0, items[0].1), items[1..])
  }

  /** Copying one `Responses` onto another slot by slot, stated without
      `Iterate`: a non-nil slot of `d` wins, except that the 400 slot is
      never copied. */
  function Overlay(r: Responses, d: Responses): (o: Responses)
    ensures o.default == (if d.default.IsNil() then r.default else d.default)
    ensures forall s ::
      o.Slot(s) == (if s in Settable && s != 400 && !d.Slot(s).IsNil() then d.Slot(s) else r.Slot(s))
  {
    Responses(
      if d.default.IsNil() then r.default else d.default,
      map s | s in r.slots.Keys + d.slots.Keys ::
        if s in Settable && s != 400 && !d.Slot(s).IsNil() then d.Slot(s) else r.Slot(s))
  }

  lemma {:induction false} SetAllPresent(r: Responses, d: Responses, order: seq<int>, s: int)
    requires forall i :: 0 <= i < |order| ==> order[i] in Settable
    ensures SetAll(r, PresentSlots(d, order)).default == r.default
    ensures SetAll(r, PresentSlots(d, order)).Slot(s) ==
      if s in order && !d.Slot(s).IsNil() then d.Slot(s) else r.Slot(s)
    decreases |order|
  {
    SettableFacts();
    if |order| > 0 {
      var x := order[0];
      var rest := PresentSlots(d, order[1..]);
      assert s in order <==> s == x || s in order[1..] by {
        assert order == [x] + order[1..];
      }
      if !d.Slot(x).IsNil() {
        assert PresentSlots(d, order) == [(x, d.Slot(x))] + rest;
        assert ([(x, d.Slot(x))] + rest)[1..] == rest;
        SetAllPresent(Set(r, x, d.Slot(x)), d, order[1..], s);
      } else {
        assert PresentSlots(d, order) == rest;
        SetAllPresent(r, d, order[1..], s);
      }
    }
  }

  /** Copying every item `Iterate` yields from `d` onto `r` with `Set` is
      `Overlay`: later non-nil values win slot by slot, `Default` included,
      and whatever `d` holds in the 400 slot is lost. */
  lemma SetAllItemsIsOverlay(r: Responses, d: Responses, s: int)
    ensures SetAll(r, Items(d)).default == Overlay(r, d).default
    ensures SetAll(r, Items(d)).Slot(s) == Overlay(r, d).Slot(s)
    ensures SetAll(r, Items(d)).Slot(400) == r.Slot(400)
  {
    IterationOccurrences(s);
    IterationOccurrences(400);
    forall i | 0 <= i < |IterationOrder| ensures IterationOrder[i] in Settable {
      IterationOccurrences(IterationOrder[i]);
    }
    var start := if d.default.IsNil() then r else Set(r, 0, d.default);
    if !d.default.IsNil() {
      assert ([(0, d.default)] + PresentSlots(d, IterationOrder))[1..] == PresentSlots(d, IterationOrder);
    } else {
      assert Items(d) == PresentSlots(d, IterationOrder);
    }
    assert SetAll(r, Items(d)) == SetAll(start, PresentSlots(d, IterationOrder));
    SetAllPresent(start, d, IterationOrder, s);
    SetAllPresent(start, d, IterationOrder, 400);
  }
}
