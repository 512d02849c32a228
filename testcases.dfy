/**
 * `validate_test_cases`: the test cases the test generator returned, reduced
 * to the dicts that carry an "input" key. A wrapper dict is unwrapped to its
 * first list member, and a case written as a string with single quotes is
 * decoded once more after the quotes are swapped.
 */
module TestCases {
  import opened Wrappers
  import opened PyText
  import opened PyJson

  /** A usable test case: a dict with an "input" key. */
  predicate IsCase(j: Json) {
    j.JObj? && HasKey(j.fields, "input")
  }

  /** The first member of a dict whose value is a list, in insertion order. */
  function FirstList(fields: seq<(string, Json)>): (r: Option<seq<Json>>)
    ensures r.Some? ==> exists k :: 0 <= k < |fields| && fields[k].1 == JArr(r.value) &&
                                    forall j :: 0 <= j < k ==> !fields[j].1.JArr?
    ensures r.None? ==> forall k :: 0 <= k < |fields| ==> !fields[k].1.JArr?
    decreases |fields|
  {
    if fields == [] then None
    else if fields[0].1.JArr? then Some(fields[0].1.items)
    else
      var r := FirstList(fields[1..]);
      assert forall k :: 1 <= k < |fields| ==> fields[k] == fields[1..][k - 1];
      assert r.Some? ==> exists k :: 0 <= k < |fields| && fields[k].1 == JArr(r.value) &&
                                    forall j :: 0 <= j < k ==> !fields[j].1.JArr? by {
        if r.Some? {
          var k :| 0 <= k < |fields[1..]| && fields[1..][k].1 == JArr(r.value) &&
                   forall j :: 0 <= j < k ==> !fields[1..][j].1.JArr?;
          assert fields[k + 1].1 == JArr(r.value);
          forall j | 0 <= j < k + 1 ensures !fields[j].1.JArr? {
            if j > 0 {
              assert fields[j] == fields[1..][j - 1];
            }
          }
        }
      }
      r
  }

  /** The list the cases are read from, if there is one. */
  function CaseList(raw: Json): (r: Option<seq<Json>>)
    ensures raw.JArr? ==> r == Some(raw.items)
    ensures !raw.JArr? && !raw.JObj? ==> r == None
    ensures raw.JObj? && r.Some? ==>
      exists k :: 0 <= k < |raw.fields| && raw.fields[k].1 == JArr(r.value) &&
                  forall j :: 0 <= j < k ==> !raw.fields[j].1.JArr?
    ensures raw.JObj? && r.None? ==> forall k :: 0 <= k < |raw.fields| ==> !raw.fields[k].1.JArr?
  {
    match raw
    case JArr(items) => Some(items)
    case JObj(fields) => FirstList(fields)
    case _ => None
  }

  /** A string item is decoded after `'` is replaced by `"`; if decoding fails the string stays. */
  function Reparse(item: Json, parse: Parser): (r: Json)
    ensures !item.JStr? ==> r == item
    ensures item.JStr? && parse(ReplaceAll(item.s, "'", "\"")).Success? ==>
              r == parse(ReplaceAll(item.s, "'", "\"")).value
    ensures item.JStr? && parse(ReplaceAll(item.s, "'", "\"")).Failure? ==> r == item && !IsCase(r)
  {
    match item
    case JStr(s) =>
      (match parse(ReplaceAll(s, "'", "\""))
       case Success(decoded) => decoded
       case Failure(_) => item)
    case _ => item
  }

  /** The usable cases among `items`, in their order. */
  function ValidCases(items: seq<Json>, parse: Parser): (cases: seq<Json>)
    ensures |cases| <= |items|
    ensures forall k :: 0 <= k < |cases| ==> IsCase(cases[k])
    decreases |items|
  {
    if items == [] then []
    else
      var item := Reparse(items[0], parse);
      (if IsCase(item) then [item] else []) + ValidCases(items[1..], parse)
  }

  /** What `validate_test_cases(raw)` returns. */
  function Validate(raw: Json, parse: Parser): seq<Json> {
    match CaseList(raw)
    case Some(items) => ValidCases(items, parse)
    case None => []
  }

  /** `validate_test_cases`: unwrap, then keep the usable cases one item at a time. */
  method ValidateTestCases(raw: Json, parse: Parser) returns (cases: seq<Json>)
    ensures cases == Validate(raw, parse)
  {
    var list := FindCaseList(raw);
    if list.None? {
      return [];
    }
    var items := list.value;
    cases := [];
    var i := 0;
    while i < |items|
      invariant 0 <= i <= |items|
      invariant cases + ValidCases(items[i..], parse) == ValidCases(items, parse)
    {
      var item := ReparseItem(items[i], parse);
      ValidCasesAt(items, i, parse);
      ghost var rest := ValidCases(items[i + 1..], parse);
      if IsCase(item) {
        assert cases + ([item] + rest) == (cases + [item]) + rest;
        cases := cases + [item];
      } else {
        assert ValidCases(items[i..], parse) == rest;
      }
      i := i + 1;
    }
    assert items[i..] == [];
  }

  /** The cases from position `i` on: the item at `i`, if usable, then those after it. */
  lemma ValidCasesAt(items: seq<Json>, i: nat, parse: Parser)
    requires i < |items|
    ensures ValidCases(items[i..], parse) ==
      (if IsCase(Reparse(items[i], parse)) then [Reparse(items[i], parse)] else []) + ValidCases(items[i + 1..], parse)
  {
    assert items[i..][1..] == items[i + 1..];
  }

  /** A string item is decoded once more after its single quotes become double quotes. */
  method ReparseItem(item: Json, parse: Parser) returns (r: Json)
    ensures r == Reparse(item, parse)
  {
    r := item;
    if item.JStr? {
      var decoded := parse(ReplaceAll(item.s, "'", "\""));
      if decoded.Success? {
        r := decoded.value;
      }
    }
  }

  /** The unwrapping step of `validate_test_cases`: a dict gives way to its first list member. */
  method FindCaseList(raw: Json) returns (list: Option<seq<Json>>)
    ensures list == CaseList(raw)
  {
    if raw.JArr? {
      return Some(raw.items);
    }
    if !raw.JObj? {
      return None;
    }
    var k := 0;
    while k < |raw.fields|
      invariant 0 <= k <= |raw.fields|
      invariant FirstList(raw.fields) == FirstList(raw.fields[k..])
    {
      if raw.fields[k].1.JArr? {
        return Some(raw.fields[k].1.items);
      }
      assert raw.fields[k..][1..] == raw.fields[k + 1..];
      k := k + 1;
    }
    return None;
  }

  /** Filtering distributes over concatenation: cases keep their relative order. */
  lemma {:induction false} ValidCasesAppend(a: seq<Json>, b: seq<Json>, parse: Parser)
    ensures ValidCases(a + b, parse) == ValidCases(a, parse) + ValidCases(b, parse)
    decreases |a|
  {
    if a == [] {
      assert a + b == b;
    } else {
      ValidCasesAppend(a[1..], b, parse);
      var head := Reparse(a[0], parse);
      var h: seq<Json> := if IsCase(head) then [head] else [];
      assert (a + b)[0] == a[0] && (a + b)[1..] == a[1..] + b;
      assert ValidCases(a + b, parse) == h + ValidCases(a[1..] + b, parse);
      assert ValidCases(a, parse) == h + ValidCases(a[1..], parse);
      assert h + (ValidCases(a[1..], parse) + ValidCases(b, parse)) == (h + ValidCases(a[1..], parse)) + ValidCases(b, parse);
    }
  }

  /** A list made only of usable cases is returned as it is. */
  lemma {:induction false} ValidCasesKeepsCases(items: seq<Json>, parse: Parser)
    requires forall k :: 0 <= k < |items| ==> IsCase(items[k])
    ensures ValidCases(items, parse) == items
    decreases |items|
  {
    if items != [] {
      ValidCasesKeepsCases(items[1..], parse);
    }
  }

  /** Validating a validated list changes nothing. */
  lemma ValidateIdempotent(raw: Json, parse: Parser)
    ensures Validate(JArr(Validate(raw, parse)), parse) == Validate(raw, parse)
  {
    ValidCasesKeepsCases(Validate(raw, parse), parse);
  }

  /** Every usable case of the list survives, and nothing else does. */
  lemma {:induction false} ValidCasesMembers(items: seq<Json>, parse: Parser, j: Json)
    ensures j in ValidCases(items, parse) <==>
      IsCase(j) && exists k :: 0 <= k < |items| && Reparse(items[k], parse) == j
    decreases |items|
  {
    if items != [] {
      ValidCasesMembers(items[1..], parse, j);
      var tail := ValidCases(items[1..], parse);
      if exists k :: 0 <= k < |items| && Reparse(items[k], parse) == j {
        var k :| 0 <= k < |items| && Reparse(items[k], parse) == j;
        if k > 0 {
          assert items[1..][k - 1] == items[k];
        }
      }
      if exists k :: 0 <= k < |items[1..]| && Reparse(items[1..][k], parse) == j {
        var k :| 0 <= k < |items[1..]| && Reparse(items[1..][k], parse) == j;
        assert items[k + 1] == items[1..][k];
      }
    }
  }
}
