// The JSON text of a list whose elements are given as texts, and its length.
module JsonLists {
  function CommaJoined(parts: seq<string>): string {
    if parts == [] then ""
    else if |parts| == 1 then parts[0]
    else CommaJoined(parts[..|parts| - 1]) + "," + parts[|parts| - 1]
  }

  function ListText(parts: seq<string>): string { "[" + CommaJoined(parts) + "]" }

  function ListSize(parts: seq<string>): nat {
    if parts == [] then 2
    else ListSize(parts[..|parts| - 1]) + |parts[|parts| - 1]| + (if |parts| == 1 then 0 else 1)
  }

  lemma {:induction false} SizeOfText(parts: seq<string>)
    ensures |ListText(parts)| == ListSize(parts)
  {
    if |parts| > 1 { SizeOfText(parts[..|parts| - 1]); } else if |parts| == 1 { assert parts[..0] == []; }
  }
}
