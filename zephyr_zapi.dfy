/**
 * The selection helpers of the Zephyr ZAPI reporting client: picking one
 * record out of a list the REST API already returned, and building the JSON
 * bodies of two update requests. The HTTP exchanges themselves are not modelled;
 * each helper receives the list the exchange would have produced.
 */
module ZephyrZapi {
  import opened Base

  /** The exceptions the helpers can raise. */
  datatype JavaException = NullPointerException | JSONException | NoSuchElementException

  /** A Java `int`. */
  newtype int32 = x: int | -0x8000_0000 <= x < 0x8000_0000

  /** Java's `x + 1` on `int`: congruent to x + 1 modulo 2^32, wrapping from Integer.MAX_VALUE to Integer.MIN_VALUE. */
  function Succ32(x: int32): (r: int32)
    ensures (r as int - x as int - 1) % 0x1_0000_0000 == 0
    ensures x as int < 0x7fff_ffff ==> r as int == x as int + 1
  {
    if x == 0x7fff_ffff then -0x8000_0000 else x + 1
  }

  // ---- findFirst ----

  /** The index `stream().filter(p).findFirst()` stops at, or |s| when nothing passes the filter. */
  function FirstWhere<T>(s: seq<T>, p: T -> bool): (i: nat)
    ensures i <= |s|
    ensures i < |s| ==> p(s[i])
    ensures forall j :: 0 <= j < i ==> !p(s[j])
  {
    if s == [] then 0
    else if p(s[0]) then 0
    else 1 + FirstWhere(s[1..], p)
  }

  // ---- text helpers with Java's meaning ----

  /** The character of decimal digit `d`. */
  function DigitChar(d: int): (c: char)
    requires 0 <= d < 10
    ensures '0' <= c <= '9' && c as int - '0' as int == d
  {
    ('0' as int + d) as char
  }

  function NaturalString(n: nat): (r: string)
    ensures |r| > 0
    ensures forall k :: 0 <= k < |r| ==> '0' <= r[k] <= '9'
  {
    if n < 10 then [DigitChar(n)] else NaturalString(n / 10) + [DigitChar(n % 10)]
  }

  /** `String.valueOf` of an integer: never the empty string. */
  function DecimalString(n: int): (r: string)
    ensures |r| > 0
    ensures n >= 0 ==> forall k :: 0 <= k < |r| ==> '0' <= r[k] <= '9'
    ensures n < 0 ==> r[0] == '-'
  {
    if n < 0 then "-" + NaturalString(-n) else NaturalString(n)
  }

  /** The number a string of decimal digits denotes, most significant digit first. */
  function DigitsValue(t: string): int
  {
    if t == [] then 0 else DigitsValue(t[..|t| - 1]) * 10 + (t[|t| - 1] as int - '0' as int)
  }

  /** The number a decimal numeral with an optional leading minus sign denotes. */
  function NumeralValue(t: string): int
  {
    if |t| > 0 && t[0] == '-' then -DigitsValue(t[1..]) else DigitsValue(t)
  }

  /** Reading the digits back gives the number written. */
  lemma {:induction false} NaturalStringValue(n: nat)
    ensures DigitsValue(NaturalString(n)) == n
    decreases n
  {
    var r := NaturalString(n);
    if n >= 10 {
      NaturalStringValue(n / 10);
      assert r[..|r| - 1] == NaturalString(n / 10);
    }
  }

  /** `String.valueOf` loses nothing: the numeral denotes the integer, whatever its sign. */
  lemma DecimalStringValue(n: int)
    ensures NumeralValue(DecimalString(n)) == n
  {
    if n < 0 {
      NaturalStringValue(-n);
      assert DecimalString(n)[1..] == NaturalString(-n);
    } else {
      NaturalStringValue(n);
    }
  }

  /** Distinct integers have distinct decimal strings. */
  lemma DecimalStringInjective(m: int, n: int)
    ensures DecimalString(m) == DecimalString(n) ==> m == n
  {
    DecimalStringValue(m);
    DecimalStringValue(n);
  }

  /** `Character.toLowerCase` on ASCII: an upper-case letter moves to its lower-case form, anything else is kept. */
  function LowerChar(c: char): (r: char)
    ensures !('A' <= r <= 'Z')
    ensures 'A' <= c <= 'Z' ==> r as int == c as int + ('a' as int - 'A' as int)
    ensures !('A' <= c <= 'Z') ==> r == c
  {
    if 'A' <= c <= 'Z' then (c as int + 32) as char else c
  }

  /**
   * `toLowerCase()`, restricted to ASCII letters: the result has the same
   * length, no upper-case letter, every other character where it was, and
   * each upper-case letter of `s` replaced by its lower-case form.
   */
  function Lower(s: string): (r: string)
    ensures |r| == |s|
    ensures forall k :: 0 <= k < |r| ==> !('A' <= r[k] <= 'Z')
    ensures forall k :: 0 <= k < |s| && !('A' <= s[k] <= 'Z') ==> r[k] == s[k]
    ensures forall k :: 0 <= k < |s| && 'A' <= s[k] <= 'Z' ==> r[k] as int == s[k] as int + ('a' as int - 'A' as int)
  {
    seq(|s|, k requires 0 <= k < |s| => LowerChar(s[k]))
  }

  lemma LowerIdempotent(s: string)
    ensures Lower(Lower(s)) == Lower(s)
  {
  }

  predicate StartsWith(s: string, prefix: string) {
    |prefix| <= |s| && s[..|prefix|] == prefix
  }

  /** `String.contains`, scanning left to right; the empty string is contained everywhere. */
  predicate Contains(s: string, sub: string)
    ensures Contains(s, sub) ==> |sub| <= |s|
    ensures sub == [] ==> Contains(s, sub)
    ensures StartsWith(s, sub) ==> Contains(s, sub)
    decreases |s|
  {
    StartsWith(s, sub) || (|s| > 0 && Contains(s[1..], sub))
  }

  /** `sub` occurs in `s` starting at position `k`. */
  predicate OccursAt(s: string, sub: string, k: int) {
    0 <= k <= |s| - |sub| && s[k..k + |sub|] == sub
  }

  /** Contains finds `sub` exactly when `sub` occurs at some position of `s`. */
  lemma {:induction false} ContainsIff(s: string, sub: string)
    ensures Contains(s, sub) <==> exists k :: OccursAt(s, sub, k)
    decreases |s|
  {
    if StartsWith(s, sub) {
      assert OccursAt(s, sub, 0);
    } else if |s| > 0 {
      ContainsIff(s[1..], sub);
      if Contains(s[1..], sub) {
        var k :| OccursAt(s[1..], sub, k);
        assert s[1..][k..k + |sub|] == s[k + 1..k + 1 + |sub|];
        assert OccursAt(s, sub, k + 1);
      }
      if exists k :: OccursAt(s, sub, k) {
        var k :| OccursAt(s, sub, k);
        assert k != 0;
        assert s[1..][k - 1..k - 1 + |sub|] == s[k..k + |sub|];
        assert OccursAt(s[1..], sub, k - 1);
      }
    }
  }

  // ---- getTestStepIdViaOrder ----

  datatype TestStepExecution = TestStepExecution(id: int, orderId: int32)

  /** The id, as text, of the first step whose orderId equals `ordering + 1`, and "" when no step has it. */
  function TestStepIdViaOrder(steps: seq<TestStepExecution>, ordering: int32): (r: string)
    ensures r == "" <==> forall i :: 0 <= i < |steps| ==> steps[i].orderId != Succ32(ordering)
    ensures r != "" ==> exists i :: (0 <= i < |steps| && steps[i].orderId == Succ32(ordering) &&
      r == DecimalString(steps[i].id) && forall j :: 0 <= j < i ==> steps[j].orderId != Succ32(ordering))
  {
    var wanted := Succ32(ordering);
    var i := FirstWhere(steps, (st: TestStepExecution) => st.orderId == wanted);
    if i < |steps| then DecimalString(steps[i].id) else ""
  }

  // ---- getProjectId ----

  datatype LabelValue = LabelValue(labelText: string, value: string)

  /** The value of the first option labelled exactly `projectName`, and "" when there is none. */
  function ProjectId(options: seq<LabelValue>, projectName: string): (r: string)
    ensures (forall i :: 0 <= i < |options| ==> options[i].labelText != projectName) ==> r == ""
    ensures forall i :: (0 <= i < |options| && options[i].labelText == projectName &&
      (forall j :: 0 <= j < i ==> options[j].labelText != projectName)) ==> r == options[i].value
  {
    var i := FirstWhere(options, (o: LabelValue) => o.labelText == projectName);
    if i < |options| then options[i].value else ""
  }

  // ---- getCycleId / getCycleIdUnderUnSchedule ----

  /** One entry of the cycle map: its key and the cycle's attributes. */
  datatype CycleEntry = CycleEntry(key: string, fields: map<string, string>)

  /** The entry has a name, and it is not `cycleName`. */
  predicate NamedOtherwise(c: CycleEntry, cycleName: string)
    ensures NamedOtherwise(c, cycleName) ==> "name" in c.fields
  {
    "name" in c.fields && c.fields["name"] != cycleName
  }

  /**
   * The key of the first entry named `cycleName`, or null when none is. The
   * filter calls `get("name").equals(..)`, so an entry without a name that is
   * reached before the match throws a NullPointerException.
   */
  function CycleIdByName(entries: seq<CycleEntry>, cycleName: string): (r: Result<Option<string>, JavaException>)
    ensures r == Success(None) <==> forall i :: 0 <= i < |entries| ==> NamedOtherwise(entries[i], cycleName)
    ensures r.Success? && r.value.Some? ==> exists i :: (0 <= i < |entries| && entries[i].key == r.value.value &&
      "name" in entries[i].fields && entries[i].fields["name"] == cycleName &&
      forall j :: 0 <= j < i ==> NamedOtherwise(entries[j], cycleName))
    ensures r.Failure? ==> r.error == NullPointerException
    ensures r.Failure? <==> exists i :: (0 <= i < |entries| &&
      "name" !in entries[i].fields && forall j :: 0 <= j < i ==> NamedOtherwise(entries[j], cycleName))
  {
    var i := FirstWhere(entries, (c: CycleEntry) => !NamedOtherwise(c, cycleName));
    if i == |entries| then Success(None)
    else if "name" !in entries[i].fields then Failure(NullPointerException)
    else Success(Some(entries[i].key))
  }

  // ---- filterDataByAttributeValue / getIssueExecutionIdViaAttributeValue ----

  /** A JSON object whose attributes are read with `getString`. */
  datatype JsonObject = JsonObject(fields: map<string, string>)

  /** The object's attribute, lowercased, contains the label value, lowercased. */
  predicate Matches(o: JsonObject, attribute: string, labelValue: string)
    ensures Matches(o, attribute, labelValue) <==>
      attribute in o.fields && exists k :: OccursAt(Lower(o.fields[attribute]), Lower(labelValue), k)
  {
    attribute in o.fields &&
    (ContainsIff(Lower(o.fields[attribute]), Lower(labelValue));
     Contains(Lower(o.fields[attribute]), Lower(labelValue)))
  }

  /**
   * What `filterDataByAttributeValue` returns: every object's attribute is
   * read first, and a missing one throws a JSONException even when an earlier
   * object would have matched; otherwise the first matching object, or a
   * NoSuchElementException from `getAsInt` when none matches.
   */
  function SelectByAttribute(items: seq<JsonObject>, attribute: string, labelValue: string): (r: Result<JsonObject, JavaException>)
    ensures r == Failure(JSONException) <==> exists i :: 0 <= i < |items| && attribute !in items[i].fields
    ensures r == Failure(NoSuchElementException) <==>
      (forall i :: 0 <= i < |items| ==> attribute in items[i].fields) &&
      (forall i :: 0 <= i < |items| ==> !Matches(items[i], attribute, labelValue))
    ensures r.Success? ==> exists i :: (0 <= i < |items| && r.value == items[i] &&
      Matches(items[i], attribute, labelValue) && forall j :: 0 <= j < i ==> !Matches(items[j], attribute, labelValue))
    ensures r.Failure? ==> r.error != NullPointerException
  {
    var missing := FirstWhere(items, (o: JsonObject) => attribute !in o.fields);
    if missing < |items| then Failure(JSONException)
    else
      var i := FirstWhere(items, (o: JsonObject) => Matches(o, attribute, labelValue));
      if i < |items| then Success(items[i]) else Failure(NoSuchElementException)
  }

  /** The search ignores the case of the label value. */
  lemma SelectIgnoresLabelCase(items: seq<JsonObject>, attribute: string, labelValue: string)
    ensures SelectByAttribute(items, attribute, labelValue) == SelectByAttribute(items, attribute, Lower(labelValue))
  {
    LowerIdempotent(labelValue);
    assert forall o :: Matches(o, attribute, labelValue) == Matches(o, attribute, Lower(labelValue));
  }

  /** `filterDataByAttributeValue`: collect the lowercased attributes, then scan them for the label value. */
  method FilterDataByAttributeValue(items: seq<JsonObject>, attribute: string, labelValue: string)
    returns (r: Result<JsonObject, JavaException>)
    ensures r == SelectByAttribute(items, attribute, labelValue)
  {
    var values: seq<string> := [];
    for i := 0 to |items|
      invariant |values| == i
      invariant forall k :: 0 <= k < i ==> attribute in items[k].fields && values[k] == Lower(items[k].fields[attribute])
    {
      if attribute !in items[i].fields {
        return Failure(JSONException);
      }
      values := values + [Lower(items[i].fields[attribute])];
    }
    var needle := Lower(labelValue);
    for i := 0 to |values|
      invariant forall k :: 0 <= k < i ==> !Matches(items[k], attribute, labelValue)
    {
      if Contains(values[i], needle) {
        return Success(items[i]);
      }
    }
    return Failure(NoSuchElementException);
  }

  /**
   * `getIssueExecutionIdViaAttributeValue` once the executions are fetched:
   * the "id" of the selected execution, and "" whenever selecting it or
   * reading its id throws.
   */
  method IssueExecutionIdViaAttributeValue(executions: seq<JsonObject>, attribute: string, attributeValue: string)
    returns (id: string)
    ensures (forall i :: 0 <= i < |executions| ==> !Matches(executions[i], attribute, attributeValue)) ==> id == ""
    ensures (exists i :: 0 <= i < |executions| && attribute !in executions[i].fields) ==> id == ""
    ensures id != "" ==> exists i :: (0 <= i < |executions| && Matches(executions[i], attribute, attributeValue) &&
      "id" in executions[i].fields && id == executions[i].fields["id"])
    ensures id == match SelectByAttribute(executions, attribute, attributeValue)
      case Success(o) => (if "id" in o.fields then o.fields["id"] else "")
      case Failure(_) => ""
  {
    var selected := FilterDataByAttributeValue(executions, attribute, attributeValue);
    match selected
    case Success(o) =>
      id := if "id" in o.fields then o.fields["id"] else "";
    case Failure(_) =>
      id := "";
  }

  // ---- request bodies ----

  /** A JSON body value: a string, or a list of strings. */
  datatype BodyValue = Text(s: string) | TextList(items: seq<string>)

  /**
   * The body of `updateTestStepStatus`: the status always, and the test
   * method's description as a comment when the status is not the pass code
   * and the description is neither null nor empty.
   */
  method UpdateTestStepStatusBody(status: string, pass: string, description: Option<string>)
    returns (postBody: map<string, BodyValue>)
    ensures "status" in postBody && postBody["status"] == Text(status)
    ensures "comment" in postBody <==> status != pass && description.Some? && description.value != ""
    ensures "comment" in postBody ==> postBody["comment"] == Text(description.value)
    ensures postBody.Keys <= {"status", "comment"}
  {
    postBody := map[];
    postBody := postBody["status" := Text(status)];
    if status != pass && !(description.None? || description.value == "") {
      postBody := postBody["comment" := Text(description.value)];
    }
  }

  /** The body of `updateTestExecutionComment`: the comment alone. */
  method UpdateTestExecutionCommentBody(comment: string) returns (postBody: map<string, BodyValue>)
    ensures postBody.Keys == {"comment"} && postBody["comment"] == Text(comment)
  {
    postBody := map[];
    postBody := postBody["comment" := Text(comment)];
  }

  /** The body of `updateTestExecutionBugs`: the defect list, and the flag telling ZAPI to replace the old one. */
  method UpdateTestExecutionBugsBody(bugs: seq<string>) returns (postBody: map<string, BodyValue>)
    ensures postBody.Keys == {"defectList", "updateDefectList"}
    ensures postBody["defectList"] == TextList(bugs) && postBody["updateDefectList"] == Text("true")
  {
    postBody := map[];
    postBody := postBody["defectList" := TextList(bugs)];
    postBody := postBody["updateDefectList" := Text("true")];
  }
}
