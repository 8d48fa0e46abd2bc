/** Query strings: their pairs, as the browser reads them, and how pairs are joined. */
module Query {
  import opened Wrappers
  import opened Percent

  /** The parts of a text between separators: at least one. */
  function Split(t: Text, sep: Byte): (parts: seq<Text>)
    ensures parts != []
  {
    if t == [] then [[]]
    else if t[0] == sep then [[]] + Split(t[1..], sep)
    else var parts := Split(t[1..], sep); [[t[0]] + parts[0]] + parts[1..]
  }

  function Join(parts: seq<Text>, sep: Byte): Text {
    if parts == [] then []
    else if |parts| == 1 then parts[0]
    else parts[0] + [sep] + Join(parts[1..], sep)
  }

  function NonEmpty(parts: seq<Text>): seq<Text> {
    if parts == [] then []
    else (if parts[0] == [] then [] else [parts[0]]) + NonEmpty(parts[1..])
  }

  /** The pairs of a search string, with or without its question mark. */
  function Pairs(search: Text): seq<Text> {
    NonEmpty(Split(if search != [] && search[0] == '?' then search[1..] else search, '&'))
  }

  /** The name of a pair, as written: what stands before its first equals sign. */
  function NameOf(pair: Text): Text {
    if pair == [] || pair[0] == '=' then [] else [pair[0]] + NameOf(pair[1..])
  }

  /** The value of a pair, as written: what stands after its first equals sign. */
  function ValueOf(pair: Text): Text {
    if pair == [] then [] else if pair[0] == '=' then pair[1..] else ValueOf(pair[1..])
  }

  predicate Names(pair: Text, name: Text) {
    FormDecode(NameOf(pair)) == name
  }

  /** The value of the first pair of a name. */
  function Get(pairs: seq<Text>, name: Text): Option<Text> {
    if pairs == [] then None
    else if Names(pairs[0], name) then Some(FormDecode(ValueOf(pairs[0])))
    else Get(pairs[1..], name)
  }

  function Format(parts: seq<Text>): Text {
    if parts == [] then [] else ['?'] + Join(parts, '&')
  }

  /** A pair as it stands between separators. */
  predicate IsPair(part: Text) {
    part != [] && '&' !in part
  }

  lemma {:induction false} SplitNone(t: Text, sep: Byte)
    requires sep !in t
    ensures Split(t, sep) == [t]
  {
    if t != [] {
      SplitNone(t[1..], sep);
      assert [t[0]] + t[1..] == t;
    }
  }

  lemma {:induction false} SplitFirst(a: Text, t: Text, sep: Byte)
    requires sep !in a
    ensures Split(a + [sep] + t, sep) == [a] + Split(t, sep)
  {
    if a == [] {
      assert ([] + [sep] + t)[1..] == t;
    } else {
      assert (a + [sep] + t)[1..] == a[1..] + [sep] + t;
      SplitFirst(a[1..], t, sep);
      assert [a[0]] + a[1..] == a;
    }
  }

  lemma {:induction false} SplitJoin(parts: seq<Text>, sep: Byte)
    requires parts != [] && forall i :: 0 <= i < |parts| ==> sep !in parts[i]
    ensures Split(Join(parts, sep), sep) == parts
  {
    if |parts| == 1 {
      SplitNone(parts[0], sep);
    } else {
      SplitJoin(parts[1..], sep);
      SplitFirst(parts[0], Join(parts[1..], sep), sep);
    }
  }

  lemma {:induction false} NonEmptyAll(parts: seq<Text>)
    requires forall i :: 0 <= i < |parts| ==> parts[i] != []
    ensures NonEmpty(parts) == parts
  {
    if parts != [] { NonEmptyAll(parts[1..]); }
  }

  /** The pairs written are the pairs read. */
  lemma FormatPairs(parts: seq<Text>)
    requires forall i :: 0 <= i < |parts| ==> IsPair(parts[i])
    ensures Pairs(Format(parts)) == parts
  {
    if parts == [] {
      var none: seq<Text> := [[]];
      assert Split([], '&') == none && none[1..] == [];
    } else {
      assert Format(parts)[1..] == Join(parts, '&');
      SplitJoin(parts, '&');
      NonEmptyAll(parts);
    }
  }

  lemma {:induction false} SplitParts(t: Text, sep: Byte, part: Text)
    requires part in Split(t, sep)
    ensures sep !in part
  {
    if t != [] {
      var parts := Split(t[1..], sep);
      if part in parts {
        SplitParts(t[1..], sep, part);
      } else if t[0] != sep {
        SplitParts(t[1..], sep, parts[0]);
      }
    }
  }

  lemma {:induction false} NonEmptyIn(parts: seq<Text>, part: Text)
    ensures part in NonEmpty(parts) <==> part in parts && part != []
  {
    if parts != [] { NonEmptyIn(parts[1..], part); }
  }

  lemma PairsArePairs(search: Text, part: Text)
    requires part in Pairs(search)
    ensures IsPair(part)
  {
    var t := if search != [] && search[0] == '?' then search[1..] else search;
    NonEmptyIn(Split(t, '&'), part);
    SplitParts(t, '&', part);
  }

  lemma {:induction false} GetConcat(a: seq<Text>, b: seq<Text>, name: Text)
    ensures Get(a + b, name) == if Get(a, name).Some? then Get(a, name) else Get(b, name)
  {
    if a == [] {
      assert a + b == b;
    } else {
      assert (a + b)[1..] == a[1..] + b;
      GetConcat(a[1..], b, name);
    }
  }

  /** A pair made of a name and a value holds them. */
  lemma {:induction false} PairParts(name: Text, value: Text)
    requires '=' !in name
    ensures NameOf(name + ['='] + value) == name && ValueOf(name + ['='] + value) == value
  {
    var pair := name + ['='] + value;
    if name == [] {
      assert pair[1..] == value;
    } else {
      assert pair[1..] == name[1..] + ['='] + value;
      PairParts(name[1..], value);
    }
  }

  /** The parts of a text are what stands between its separators: joined again they are the
      text. */
  lemma {:induction false} JoinSplit(t: Text, sep: Byte)
    ensures Join(Split(t, sep), sep) == t
  {
    if t != [] {
      var parts := Split(t[1..], sep);
      JoinSplit(t[1..], sep);
      if t[0] == sep {
        assert ([[]] + parts)[1..] == parts;
      } else {
        var more := [[t[0]] + parts[0]] + parts[1..];
        assert more[1..] == parts[1..];
        assert Join(more, sep) == [t[0]] + Join(parts, sep);
      }
    }
  }

  /** A question mark before the pairs is no part of them. */
  lemma PairsBare(t: Text)
    requires t == [] || t[0] != '?'
    ensures Pairs(['?'] + t) == Pairs(t)
  {
    assert (['?'] + t)[1..] == t;
  }

  /** Without an equals sign a pair is all name, and its value is blank. */
  lemma {:induction false} PairWhole(pair: Text)
    requires '=' !in pair
    ensures NameOf(pair) == pair && ValueOf(pair) == []
  {
    if pair != [] {
      PairWhole(pair[1..]);
      assert [pair[0]] + pair[1..] == pair;
    }
  }

  /** Pairs are written after a question mark, each after the first behind an ampersand. */
  lemma {:induction false} FormatSnoc(parts: seq<Text>, part: Text)
    ensures Format([]) == []
    ensures Format(parts + [part]) == if parts == [] then "?" + part else Format(parts) + "&" + part
  {
    if parts == [] {
      assert parts + [part] == [part];
    } else {
      JoinSnoc(parts, part);
    }
  }

  lemma {:induction false} JoinSnoc(parts: seq<Text>, part: Text)
    requires parts != []
    ensures Join(parts + [part], '&') == Join(parts, '&') + "&" + part
  {
    assert (parts + [part])[1..] == parts[1..] + [part];
    if |parts| == 1 {
      assert parts[1..] + [part] == [part];
    } else {
      JoinSnoc(parts[1..], part);
    }
  }
}
