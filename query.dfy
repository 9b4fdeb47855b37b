/** Query strings as `URLSearchParams` builds them: name/value pairs, each
    side form-encoded, joined by '=' and '&' (WHATWG URL Standard, section 5.2,
    "application/x-www-form-urlencoded serializing"). A parser that splits
    such a string back into its pairs is the serializer's partner. */
module FormQuery {
  import opened Wrappers
  import PE = PercentEncoding

  type Param = (string, string)

  function SerializePair(p: Param): (s: string)
    ensures '&' !in s
  {
    PE.FormEncode(p.0) + "=" + PE.FormEncode(p.1)
  }

  /** `params.toString()` for parameters set in the order of `ps`. */
  function Serialize(ps: seq<Param>): (q: string)
    ensures q == "" <==> ps == []
  {
    if ps == [] then ""
    else if |ps| == 1 then SerializePair(ps[0])
    else SerializePair(ps[0]) + "&" + Serialize(ps[1..])
  }

  /** The pieces of `s` between occurrences of `sep`, as `String.split`. */
  function SplitOn(s: string, sep: char): (parts: seq<string>)
    ensures |parts| >= 1
  {
    if s == [] then [""]
    else if s[0] == sep then [""] + SplitOn(s[1..], sep)
    else
      var rest := SplitOn(s[1..], sep);
      [[s[0]] + rest[0]] + rest[1..]
  }

  function ParsePair(segment: string): Option<Param>
  {
    var parts := SplitOn(segment, '=');
    if |parts| != 2 then None
    else match (PE.FormDecode(parts[0]), PE.FormDecode(parts[1]))
      case (Some(name), Some(value)) => Some((name, value))
      case _ => None
  }

  function ParsePairs(segments: seq<string>): Option<seq<Param>>
  {
    if segments == [] then Some([])
    else match (ParsePair(segments[0]), ParsePairs(segments[1..]))
      case (Some(p), Some(ps)) => Some([p] + ps)
      case _ => None
  }

  /** Reads a query string back into its name/value pairs: a partial inverse
      of `Serialize`, used to state its round trip, not a model of the
      WHATWG `URLSearchParams` parser. */
  function Parse(q: string): Option<seq<Param>>
  {
    if q == "" then Some([]) else ParsePairs(SplitOn(q, '&'))
  }

  function Segments(ps: seq<Param>): seq<string>
  {
    if ps == [] then [] else [SerializePair(ps[0])] + Segments(ps[1..])
  }

  lemma {:induction false} SplitOnNoSep(s: string, sep: char)
    requires sep !in s
    ensures SplitOn(s, sep) == [s]
  {
    if s != [] {
      SplitOnNoSep(s[1..], sep);
      assert [s[0]] + s[1..] == s;
    }
  }

  lemma {:induction false} SplitOnJoin(a: string, sep: char, b: string)
    requires sep !in a
    ensures SplitOn(a + [sep] + b, sep) == [a] + SplitOn(b, sep)
  {
    if a == [] {
      assert a + [sep] + b == [sep] + b;
      assert ([sep] + b)[1..] == b;
    } else {
      var s := a + [sep] + b;
      assert s[0] == a[0];
      assert s[1..] == a[1..] + [sep] + b;
      SplitOnJoin(a[1..], sep, b);
      assert [a[0]] + a[1..] == a;
    }
  }

  lemma ParseSerializePair(p: Param)
    ensures ParsePair(SerializePair(p)) == Some(p)
  {
    var n, v := PE.FormEncode(p.0), PE.FormEncode(p.1);
    assert SerializePair(p) == n + ['='] + v;
    SplitOnJoin(n, '=', v);
    SplitOnNoSep(v, '=');
    PE.FormDecodeEncode(p.0);
    PE.FormDecodeEncode(p.1);
  }

  lemma {:induction false} SplitSerialize(ps: seq<Param>)
    requires ps != []
    ensures SplitOn(Serialize(ps), '&') == Segments(ps)
  {
    if |ps| == 1 {
      SplitOnNoSep(SerializePair(ps[0]), '&');
    } else {
      assert Serialize(ps) == SerializePair(ps[0]) + ['&'] + Serialize(ps[1..]);
      SplitOnJoin(SerializePair(ps[0]), '&', Serialize(ps[1..]));
      SplitSerialize(ps[1..]);
    }
  }

  lemma {:induction false} ParsePairsSegments(ps: seq<Param>)
    ensures ParsePairs(Segments(ps)) == Some(ps)
  {
    if ps != [] {
      ParseSerializePair(ps[0]);
      ParsePairsSegments(ps[1..]);
      assert Segments(ps)[1..] == Segments(ps[1..]);
      assert [ps[0]] + ps[1..] == ps;
    }
  }

  /** Round trip: the query string gives back exactly the pairs, in order,
      that were set. */
  lemma ParseSerialize(ps: seq<Param>)
    ensures Parse(Serialize(ps)) == Some(ps)
  {
    if ps != [] {
      SplitSerialize(ps);
      ParsePairsSegments(ps);
    }
  }
}
