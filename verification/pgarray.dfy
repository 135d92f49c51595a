/** `getArrToString`: an `int64` slice as a PostgreSQL array literal, the text form
    described in section 8.15.2 ("Array Value Input") of the PostgreSQL manual:
    braces around the comma-separated element values. */
module PgArray {
  import opened Base
  import opened Strings
  import opened Decimal

  /** The decimal rendering of every element, in order (`strArr`). */
  function Elements(arr: seq<Int64>): (parts: seq<string>)
    ensures |parts| == |arr|
    ensures forall i :: 0 <= i < |arr| ==> parts[i] == FormatInt(arr[i])
  {
    if |arr| == 0 then [] else [FormatInt(arr[0])] + Elements(arr[1..])
  }

  /** `fmt.Sprintf("{%s}", strings.Join(strArr, ","))`. */
  function Format(arr: seq<Int64>): (lit: string)
    ensures |lit| >= 2 && lit[0] == '{' && lit[|lit| - 1] == '}'
    ensures lit == "{}" <==> |arr| == 0
  {
    var body := Join(Elements(arr), ",");
    "{" + body + "}"
  }

  /** The element texts between the braces, read back one by one. */
  function ParseElements(parts: seq<string>): Option<seq<int>>
  {
    if |parts| == 0 then Some([])
    else
      match (ParseInt(parts[0]), ParseElements(parts[1..]))
      case (Some(v), Some(vs)) => Some([v] + vs)
      case _ => None
  }

  /** Reads an array literal of integers; `None` when the text is not one. */
  function Parse(lit: string): Option<seq<int>>
  {
    if |lit| < 2 || lit[0] != '{' || lit[|lit| - 1] != '}' then None
    else if |lit| == 2 then Some([])
    else ParseElements(Split(lit[1..|lit| - 1], ','))
  }

  /** No rendered integer contains the separator. */
  lemma NoCommaInElements(arr: seq<Int64>)
    ensures forall i :: 0 <= i < |arr| ==> ',' !in Elements(arr)[i]
  {
  }

  lemma {:induction false} ParseElementsOfElements(arr: seq<Int64>)
    ensures ParseElements(Elements(arr)) == Some(arr)
  {
    if |arr| > 0 {
      ParseFormatInt(arr[0]);
      assert Elements(arr)[1..] == Elements(arr[1..]);
      ParseElementsOfElements(arr[1..]);
      assert [arr[0]] + arr[1..] == arr;
    }
  }

  /** Round trip: PostgreSQL reads back exactly the array that was rendered. */
  lemma ParseFormat(arr: seq<Int64>)
    ensures Parse(Format(arr)) == Some(arr)
  {
    var lit := Format(arr);
    if |arr| > 0 {
      var body := Join(Elements(arr), ",");
      assert lit[1..|lit| - 1] == body;
      NoCommaInElements(arr);
      SplitJoin(Elements(arr), ',');
      ParseElementsOfElements(arr);
    }
  }

  /** An array of n > 0 elements renders with exactly n - 1 commas. */
  lemma CommaCount(arr: seq<Int64>)
    ensures Count(Format(arr), ',') == if |arr| == 0 then 0 else |arr| - 1
  {
    var body := Join(Elements(arr), ",");
    NoCommaInElements(arr);
    JoinCount(Elements(arr), ',');
    CountAppend("{", body, ',');
    CountAppend("{" + body, "}", ',');
    CountAbsent("{", ',');
    CountAbsent("}", ',');
  }
}
