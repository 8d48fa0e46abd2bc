/** The app state in the URL, web/src/app-state.ts: a view of the search string that reads
    its own parameters and passes the others through. */
module AppState {
  import opened Wrappers
  import opened Percent
  import opened Query
  import opened Calendar

  datatype ViewMode = Layers | Data | Sources | Author | XRay

  /** `rail` tells whether the rail is collapsed by the link. */
  datatype AppState = AppState(view: ViewMode, sel: Option<Text>, from: Option<Text>, to: Option<Text>,
                               step: Option<Text>, rail: bool)

  const VIEW: Text := "view"
  const SEL: Text := "sel"
  const FROM: Text := "from"
  const TO: Text := "to"
  const STEP: Text := "step"
  const RAIL: Text := "rail"

  const WRITTEN_PARAMS := [VIEW, SEL, FROM, TO, STEP]

  function ViewName(view: ViewMode): Text {
    match view
    case Layers => "layers"
    case Data => "data"
    case Sources => "sources"
    case Author => "author"
    case XRay => "xray"
  }

  function ViewOf(raw: Option<Text>): ViewMode {
    if raw == Some("data") then Data
    else if raw == Some("sources") then Sources
    else if raw == Some("author") then Author
    else if raw == Some("xray") then XRay
    else Layers
  }

  // ----- Reading -----

  function NonBlank(value: Option<Text>): Option<Text> {
    if value == Some([]) then None else value
  }

  /** The state a list of pairs holds. */
  function Read(pairs: seq<Text>): AppState {
    var view := ViewOf(Get(pairs, VIEW));
    AppState(view,
      if view == Author then NonBlank(Get(pairs, SEL)) else None,
      ParseDay(Get(pairs, FROM)),
      ParseDay(Get(pairs, TO)),
      if view == Sources then NonBlank(Get(pairs, STEP)) else None,
      Get(pairs, RAIL) == Some("collapsed"))
  }

  function Parse(search: Text): AppState {
    Read(Pairs(search))
  }

  method ParseAppState(search: Text) returns (state: AppState)
    ensures state == Parse(search) && ReadByName(search, state)
  {
    ReadsByName(search);
    var params := Pairs(search);
    var view := ViewOf(Get(params, VIEW));
    state := AppState(view, None, None, None, None, false);
    var sel := Get(params, SEL);
    if view == Author && sel.Some? && sel.value != [] {
      state := state.(sel := sel);
    }
    var from := ParseDay(Get(params, FROM));
    if from.Some? {
      state := state.(from := from);
    }
    var to := ParseDay(Get(params, TO));
    if to.Some? {
      state := state.(to := to);
    }
    var step := Get(params, STEP);
    if view == Sources && step.Some? && step.value != [] {
      state := state.(step := step);
    }
    if Get(params, RAIL) == Some("collapsed") {
      state := state.(rail := true);
    }
  }

  // ----- Writing -----

  /** A pair of a parameter this module does not write. */
  predicate IsForeign(pair: Text)
    requires Decode(NameOf(pair)).Some?
  {
    Decode(NameOf(pair)).value !in WRITTEN_PARAMS
  }

  predicate Readable(pairs: seq<Text>) {
    forall i :: 0 <= i < |pairs| ==> Decode(NameOf(pairs[i])).Some?
  }

  function Foreign(pairs: seq<Text>): seq<Text>
    requires Readable(pairs)
  {
    if pairs == [] then []
    else (if IsForeign(pairs[0]) then [pairs[0]] else []) + Foreign(pairs[1..])
  }

  /** A parameter as written, unless it is absent or blank. */
  function Param(name: Text, value: Option<Text>): seq<Text> {
    if NonBlank(value).None? then [] else [name + ['='] + Encode(value.value)]
  }

  /** The pairs a state is written as. */
  function Own(s: AppState): seq<Text> {
    (if s.view == Layers then [] else [VIEW + ['='] + ViewName(s.view)])
    + Param(SEL, if s.view == Author then s.sel else None)
    + Param(STEP, if s.view == Sources then s.step else None)
    + Param(FROM, s.from)
    + Param(TO, s.to)
  }

  /** The search string with a state written into it; None where decoding a pair's name
      throws. */
  function Written(search: Text, s: AppState): Option<Text> {
    if Readable(Pairs(search)) then Some(Format(Own(s) + Foreign(Pairs(search)))) else None
  }

  /** The pairs of parameters this module does not write, byte for byte; None where
      decoding a name throws. */
  method ForeignPairs(search: Text) returns (foreign: Option<seq<Text>>)
    ensures foreign == if Readable(Pairs(search)) then Some(Foreign(Pairs(search))) else None
  {
    hide IsForeign, Foreign;
    var pairs := Pairs(search);
    var kept: seq<Text> := [];
    assert Foreign([]) == [] by { ForeignNone(); }
    for i := 0 to |pairs|
      invariant Readable(pairs[..i]) && kept == Foreign(pairs[..i])
    {
      if Decode(NameOf(pairs[i])).None? {
        return None;
      }
      assert pairs[..i + 1] == pairs[..i] + [pairs[i]];
      ForeignOne(pairs[i]);
      ForeignConcat(pairs[..i], [pairs[i]]);
      if IsForeign(pairs[i]) {
        kept := kept + [pairs[i]];
      }
    }
    assert pairs[..|pairs|] == pairs;
    foreign := Some(kept);
  }

  /** Adds a parameter, unless it is absent or blank. */
  method Push(parts: seq<Text>, name: Text, value: Option<Text>) returns (more: seq<Text>)
    ensures more == parts + Param(name, value)
  {
    more := parts;
    if value.Some? && value.value != [] {
      more := more + [name + ['='] + Encode(value.value)];
    }
  }

  /** Puts the state's own pairs before the foreign ones. */
  method WithAppState(search: Text, s: AppState) returns (r: Option<Text>)
    ensures r == Written(search, s) && (r.Some? ==> WrittenByName(s, r.value))
  {
    if Readable(Pairs(search)) { WritesByName(search, s); }
    hide ViewName, Readable, Foreign, Pairs, Join, Param;
    var foreign := ForeignPairs(search);
    if foreign.None? {
      return None;
    }
    var parts: seq<Text> := [];
    if s.view != Layers {
      parts := parts + [VIEW + ['='] + ViewName(s.view)];
    }
    assert parts == if s.view == Layers then [] else [VIEW + ['='] + ViewName(s.view)];
    parts := Push(parts, SEL, if s.view == Author then s.sel else None);
    parts := Push(parts, STEP, if s.view == Sources then s.step else None);
    parts := Push(parts, FROM, s.from);
    parts := Push(parts, TO, s.to);
    assert parts == Own(s);
    parts := parts + foreign.value;
    r := Some(if parts == [] then [] else ['?'] + Join(parts, '&'));
  }

  // ----- Foreign pairs -----

  lemma ForeignNone()
    ensures Readable([]) && Foreign([]) == []
  {
  }

  lemma ForeignCons(pair: Text, pairs: seq<Text>)
    requires Decode(NameOf(pair)).Some? && Readable(pairs)
    ensures Readable([pair] + pairs)
    ensures Foreign([pair] + pairs) == if IsForeign(pair) then [pair] + Foreign(pairs) else Foreign(pairs)
  {
    hide IsForeign;
    assert ([pair] + pairs)[1..] == pairs;
  }

  lemma GetCons(pair: Text, pairs: seq<Text>, name: Text)
    ensures Get([pair] + pairs, name) == if Names(pair, name) then Some(FormDecode(ValueOf(pair))) else Get(pairs, name)
  {
    hide Names, FormDecode, ValueOf;
    assert ([pair] + pairs)[1..] == pairs;
  }

  lemma ForeignOne(pair: Text)
    requires Decode(NameOf(pair)).Some?
    ensures Readable([pair]) && Foreign([pair]) == if IsForeign(pair) then [pair] else []
  {
    hide Readable, Foreign, IsForeign, Decode;
    ForeignNone();
    ForeignCons(pair, []);
    assert [pair] + [] == [pair];
  }

  lemma {:induction false} ForeignConcat(a: seq<Text>, b: seq<Text>)
    requires Readable(a) && Readable(b)
    ensures Readable(a + b) && Foreign(a + b) == Foreign(a) + Foreign(b)
  {
    hide IsForeign, Foreign;
    if a == [] {
      ForeignNone();
      assert a + b == b;
    } else {
      var pair, rest := a[0], a[1..];
      assert a == [pair] + rest && a + b == [pair] + (rest + b);
      ForeignConcat(rest, b);
      ForeignCons(pair, rest);
      ForeignCons(pair, rest + b);
    }
  }

  /** What a pair's name must not hold for the two decoders to agree on it. */
  predicate PlainName(name: Text) {
    '%' !in name && '+' !in name && ' ' !in name && '=' !in name && '&' !in name
  }

  lemma WrittenPlain(name: Text)
    requires name in WRITTEN_PARAMS
    ensures PlainName(name)
  {
    assert PlainName(VIEW) && PlainName(SEL) && PlainName(FROM) && PlainName(TO) && PlainName(STEP);
  }

  /** The writer and the reader agree on which pairs carry a written parameter, though they
      decode names differently. */
  lemma SameParam(pair: Text, name: Text)
    requires Decode(NameOf(pair)).Some? && PlainName(name)
    ensures Decode(NameOf(pair)).value == name <==> Names(pair, name)
  {
    DecodersAgree(NameOf(pair));
  }

  /** Dropping the written parameters drops exactly them from what can be read. */
  lemma {:induction false} ForeignReads(pairs: seq<Text>, name: Text)
    requires Readable(pairs)
    ensures Get(Foreign(pairs), name) == if name in WRITTEN_PARAMS then None else Get(pairs, name)
  {
    hide Foreign, Get, IsForeign, Names;
    if pairs == [] {
      assert Foreign([]) == [] by { ForeignNone(); }
      assert Get([], name) == None by { GetNone(name); }
    } else {
      var pair, rest := pairs[0], pairs[1..];
      assert pairs == [pair] + rest;
      ForeignReads(rest, name);
      ForeignCons(pair, rest);
      GetCons(pair, rest, name);
      GetCons(pair, Foreign(rest), name);
      if Names(pair, name) { ForeignNames(pair, name); }
    }
  }

  lemma GetNone(name: Text)
    ensures Get([], name) == None
  {
  }

  /** A foreign pair names no written parameter, a dropped one no other. */
  lemma ForeignNames(pair: Text, name: Text)
    requires Decode(NameOf(pair)).Some? && Names(pair, name)
    ensures IsForeign(pair) <==> name !in WRITTEN_PARAMS
  {
    hide Names, Decode;
    if name in WRITTEN_PARAMS {
      WrittenPlain(name);
      SameParam(pair, name);
    } else if !IsForeign(pair) {
      var written := Decode(NameOf(pair)).value;
      WrittenPlain(written);
      SameParam(pair, written);
      NamesOne(pair, name, written);
    }
  }

  lemma NamesOne(pair: Text, a: Text, b: Text)
    requires Names(pair, a) && Names(pair, b)
    ensures a == b
  {
  }

  lemma {:induction false} ForeignStays(pairs: seq<Text>)
    requires Readable(pairs)
    ensures Readable(Foreign(pairs)) && Foreign(Foreign(pairs)) == Foreign(pairs)
    ensures AllPairs(pairs) ==> AllPairs(Foreign(pairs))
  {
    hide Foreign, IsForeign, IsPair;
    if pairs == [] {
      assert Foreign([]) == [] by { ForeignNone(); }
    } else {
      var pair, rest := pairs[0], pairs[1..];
      assert pairs == [pair] + rest;
      ForeignStays(rest);
      ForeignCons(pair, rest);
      ForeignCons(pair, Foreign(rest));
    }
  }

  predicate AllPairs(parts: seq<Text>) {
    forall i :: 0 <= i < |parts| ==> IsPair(parts[i])
  }

  // ----- The pairs written -----

  /** Pairs of written parameters only, as they stand in a search string. */
  ghost predicate Ours(pairs: seq<Text>) {
    Readable(pairs) && Foreign(pairs) == [] && AllPairs(pairs)
  }

  lemma OursConcat(a: seq<Text>, b: seq<Text>)
    requires Ours(a) && Ours(b)
    ensures Ours(a + b)
  {
    ForeignConcat(a, b);
  }

  /** One pair: what can be read from it. */
  lemma PairReads(name: Text, raw: Text, other: Text)
    requires name in WRITTEN_PARAMS && '&' !in raw
    ensures Ours([name + ['='] + raw])
    ensures Get([name + ['='] + raw], other) == if other == name then Some(FormDecode(raw)) else None
  {
    WrittenPlain(name);
    PairParts(name, raw);
    PlainDecodes(name);
    var pair := name + ['='] + raw;
    ForeignOne(pair);
    var pairs := [pair];
    assert pairs[1..] == [];
    assert '&' !in pair;
  }

  lemma ParamReads(name: Text, value: Option<Text>, other: Text)
    requires name in WRITTEN_PARAMS
    ensures Ours(Param(name, value))
    ensures Get(Param(name, value), other) == if other == name then NonBlank(value) else None
  {
    if NonBlank(value).Some? {
      EncodeUnseparated(value.value, '&');
      EncodeDecodes(value.value);
      PairReads(name, Encode(value.value), other);
    }
  }

  lemma ViewReads(view: ViewMode, other: Text)
    ensures Ours([VIEW + ['='] + ViewName(view)])
    ensures Get([VIEW + ['='] + ViewName(view)], other) == if other == VIEW then Some(ViewName(view)) else None
  {
    assert '&' !in ViewName(view) && '%' !in ViewName(view) && '+' !in ViewName(view);
    PlainDecodes(ViewName(view));
    PairReads(VIEW, ViewName(view), other);
  }

  // ----- The lens -----

  /** What a state is read back as: the parameters of its view, the bounds that are days,
      and the rail as the link has it. */
  function Canonical(s: AppState, rail: bool): AppState {
    AppState(s.view,
      if s.view == Author then NonBlank(s.sel) else None,
      ParseDay(s.from),
      ParseDay(s.to),
      if s.view == Sources then NonBlank(s.step) else None,
      rail)
  }

  /** The state's own pairs hold its parameters and no other. */
  lemma OwnReads(s: AppState, name: Text)
    ensures Ours(Own(s))
    ensures Get(Own(s), name) ==
      if name == VIEW then if s.view == Layers then None else Some(ViewName(s.view))
      else if name == SEL then if s.view == Author then NonBlank(s.sel) else None
      else if name == STEP then if s.view == Sources then NonBlank(s.step) else None
      else if name == FROM then NonBlank(s.from)
      else if name == TO then NonBlank(s.to)
      else None
  {
    hide Ours, Get, Param, ViewName;
    var view := if s.view == Layers then [] else [VIEW + ['='] + ViewName(s.view)];
    var sel := Param(SEL, if s.view == Author then s.sel else None);
    var step := Param(STEP, if s.view == Sources then s.step else None);
    var from, to := Param(FROM, s.from), Param(TO, s.to);
    if s.view == Layers { NoneOurs(name); } else { ViewReads(s.view, name); }
    ParamReads(SEL, if s.view == Author then s.sel else None, name);
    ParamReads(STEP, if s.view == Sources then s.step else None, name);
    ParamReads(FROM, s.from, name);
    ParamReads(TO, s.to, name);
    Both(view, sel, name);
    Both(view + sel, step, name);
    Both(view + sel + step, from, name);
    Both(view + sel + step + from, to, name);
    NamesApart();
  }

  lemma NoneOurs(name: Text)
    ensures Ours([]) && Get([], name) == None
  {
  }

  lemma Both(a: seq<Text>, b: seq<Text>, name: Text)
    requires Ours(a) && Ours(b)
    ensures Ours(a + b) && Get(a + b, name) == if Get(a, name).Some? then Get(a, name) else Get(b, name)
  {
    OursConcat(a, b);
    GetConcat(a, b, name);
  }

  lemma NamesApart()
    ensures VIEW != SEL && VIEW != STEP && VIEW != FROM && VIEW != TO && SEL != STEP && SEL != FROM && SEL != TO
    ensures STEP != FROM && STEP != TO && FROM != TO
    ensures RAIL !in WRITTEN_PARAMS
  {
    assert VIEW[0] == 'v' && SEL[0] == 's' && FROM[0] == 'f' && TO[0] == 't' && STEP[0] == 's' && RAIL[0] == 'r';
    assert SEL[1] == 'e' && STEP[1] == 't';
  }

  /** The pairs of the string written: the state's, then the foreign ones. */
  lemma WrittenPairs(search: Text, s: AppState)
    requires Readable(Pairs(search))
    ensures Pairs(Written(search, s).value) == Own(s) + Foreign(Pairs(search))
  {
    hide Own, Readable, Foreign, Pairs, IsPair, Format;
    var pairs := Pairs(search);
    OwnReads(s, VIEW);
    assert AllPairs(pairs) by { AllPairsOf(search); }
    ForeignStays(pairs);
    FormatPairs(Own(s) + Foreign(pairs));
  }

  lemma AllPairsOf(search: Text)
    ensures AllPairs(Pairs(search))
  {
    forall i | 0 <= i < |Pairs(search)|
      ensures IsPair(Pairs(search)[i])
    {
      PairsArePairs(search, Pairs(search)[i]);
    }
  }

  /** Foreign pairs survive, byte for byte and in order, and stay readable. */
  lemma ForeignSurvive(search: Text, s: AppState)
    requires Readable(Pairs(search))
    ensures var out := Written(search, s).value;
            Readable(Pairs(out)) && Foreign(Pairs(out)) == Foreign(Pairs(search))
  {
    hide Own, Readable, Foreign, Pairs, AllPairs, Written;
    WrittenPairs(search, s);
    OwnReads(s, VIEW);
    ForeignStays(Pairs(search));
    ForeignConcat(Own(s), Foreign(Pairs(search)));
  }

  /** Reading what was written gives the canonical state, with the rail of the old string. */
  lemma ReadAfterWrite(search: Text, s: AppState)
    requires Readable(Pairs(search))
    ensures Parse(Written(search, s).value) == Canonical(s, Parse(search).rail)
  {
    hide Own, Readable, Foreign, Pairs, Get, Written, DayShape;
    WrittenPairs(search, s);
    NamesApart();
    var pairs := Pairs(search);
    forall name
      ensures Get(Own(s) + Foreign(pairs), name) ==
        if Get(Own(s), name).Some? then Get(Own(s), name)
        else if name in WRITTEN_PARAMS then None else Get(pairs, name)
    {
      GetConcat(Own(s), Foreign(pairs), name);
      ForeignReads(pairs, name);
    }
    OwnReads(s, VIEW);
    OwnReads(s, SEL);
    OwnReads(s, STEP);
    OwnReads(s, FROM);
    OwnReads(s, TO);
    OwnReads(s, RAIL);
    ViewNames(s.view);
    BlankNoDay();
  }

  lemma ViewNames(view: ViewMode)
    ensures ViewOf(Some(ViewName(view))) == view && ViewOf(None) == Layers
  {
  }

  lemma BlankNoDay()
    ensures ParseDay(Some([])) == None
  {
  }

  /** Every other parameter reads as it did. */
  lemma ForeignReadsKept(search: Text, s: AppState, name: Text)
    requires Readable(Pairs(search)) && name !in WRITTEN_PARAMS
    ensures Get(Pairs(Written(search, s).value), name) == Get(Pairs(search), name)
  {
    hide Own, Readable, Foreign, Pairs, Get, Written;
    WrittenPairs(search, s);
    GetConcat(Own(s), Foreign(Pairs(search)), name);
    ForeignReads(Pairs(search), name);
    OwnReads(s, name);
  }

  /** A second write overwrites the first completely. */
  lemma WriteAfterWrite(search: Text, a: AppState, b: AppState)
    requires Readable(Pairs(search))
    ensures Written(Written(search, a).value, b) == Written(search, b)
  {
    hide Own, Readable, Foreign, Pairs;
    ForeignSurvive(search, a);
  }

  /** Writing back what was read changes nothing that can be read of it, and doing so again
      changes nothing at all. */
  lemma WriteAfterRead(search: Text)
    requires Readable(Pairs(search))
    ensures var out := Written(search, Parse(search)).value;
            Parse(out) == Parse(search) && Written(out, Parse(out)) == Some(out)
  {
    hide Readable, Pairs, ParseDay, Own, Format;
    ReadAfterWrite(search, Parse(search));
    ReadIsCanonical(Pairs(search));
    WriteAfterWrite(search, Parse(search), Parse(search));
  }

  lemma ReadIsCanonical(pairs: seq<Text>)
    ensures Canonical(Read(pairs), Read(pairs).rail) == Read(pairs)
  {
    hide DayShape, Get;
  }

  /** Whatever the state, writing throws exactly when the name of some pair holds a percent
      sign that does not begin the escapes of a whole UTF-8 character. */
  lemma WritesExactly(search: Text, s: AppState)
    ensures Written(search, s).Some? <==>
      forall i :: 0 <= i < |Pairs(search)| ==> WellSpelled(NameOf(Pairs(search)[i]))
  {
    forall i | 0 <= i < |Pairs(search)|
      ensures Decode(NameOf(Pairs(search)[i])).Some? <==> WellSpelled(NameOf(Pairs(search)[i]))
    {
      DecodesWhen(NameOf(Pairs(search)[i]));
    }
  }

  /** A lone percent sign in a foreign pair is read as it stands, but no state can be written
      beside it. */
  lemma LonePercentThrows(s: AppState)
    ensures Written("?%", s) == None
    ensures Parse("?%") == AppState(Layers, None, None, None, None, false)
  {
    var pairs: seq<Text> := ["%"];
    LonePercent();
    assert NameOf(pairs[0]) == "%";
    forall name | name in WRITTEN_PARAMS + [RAIL]
      ensures Get(pairs, name) == None
    {
      NamesLonger(name);
      assert pairs[1..] == [];
    }
    hide Get, DayShape;
  }

  lemma LonePercent()
    ensures var pairs: seq<Text> := ["%"];
            Pairs("?%") == pairs && NameOf("%") == "%" && Decode("%") == None && FormDecode("%") == "%"
  {
    var t: Text := "%";
    assert "?%"[1..] == t && t[1..] == [];
    SplitNone(t, '&');
    var pairs: seq<Text> := [t];
    assert pairs[1..] == [];
    NonEmptyAll(pairs);
  }

  lemma NamesLonger(name: Text)
    requires name in WRITTEN_PARAMS + [RAIL]
    ensures |name| > 1
  {
  }

  /** Two states are equal when they agree on everything. */
  lemma StatesEqual(a: AppState, b: AppState)
    ensures AppStatesEqual(a, b) <==> a == b
  {
  }

  predicate AppStatesEqual(a: AppState, b: AppState) {
    a.view == b.view && a.sel == b.sel && a.rail == b.rail && a.from == b.from && a.to == b.to && a.step == b.step
  }

  /** States in canonical form are written the same exactly when they are equal but for
      the rail. */
  lemma EqualWritten(search: Text, a: AppState, b: AppState)
    requires Readable(Pairs(search)) && a == Canonical(a, a.rail) && b == Canonical(b, b.rail)
    ensures Written(search, a) == Written(search, b) <==> AppStatesEqual(a, b.(rail := a.rail))
  {
    hide Readable, Written, Pairs, ParseDay, NonBlank;
    if Written(search, a) == Written(search, b) {
      ReadAfterWrite(search, a);
      ReadAfterWrite(search, b);
    } else {
      RailUnwritten(search, b, a.rail);
    }
  }

  lemma RailUnwritten(search: Text, s: AppState, rail: bool)
    ensures Written(search, s) == Written(search, s.(rail := rail))
  {
  }

  // ----- The parameters by name -----

  /** A date of the calendar, written out. */
  ghost predicate IsDate(t: Text) {
    exists d :: Writes(d, t) && InCalendar(d)
  }

  /** `bound` is the value, if that is a date. */
  ghost predicate BoundRead(bound: Option<Text>, value: Option<Text>) {
    (bound.Some? <==> value.Some? && IsDate(value.value)) && (bound.Some? ==> bound == value)
  }

  /** `read` is the value, where it is asked for and not blank. */
  predicate TextRead(read: Option<Text>, asked: bool, value: Option<Text>) {
    (read.Some? <==> asked && value.Some? && value.value != "") && (read.Some? ==> read == value)
  }

  /** What each parameter of a search string is read as. */
  ghost predicate ReadByName(search: Text, state: AppState) {
    var pairs := Pairs(search);
    var view := Get(pairs, "view");
    (state.view == Data <==> view == Some("data")) && (state.view == Sources <==> view == Some("sources")) &&
    (state.view == Author <==> view == Some("author")) && (state.view == XRay <==> view == Some("xray")) &&
    TextRead(state.sel, view == Some("author"), Get(pairs, "sel")) &&
    TextRead(state.step, view == Some("sources"), Get(pairs, "step")) &&
    BoundRead(state.from, Get(pairs, "from")) && BoundRead(state.to, Get(pairs, "to")) &&
    (state.rail <==> Get(pairs, "rail") == Some("collapsed"))
  }

  lemma BoundsRead(value: Option<Text>)
    ensures BoundRead(ParseDay(value), value)
  {
    hide ParseDay, Writes, InCalendar;
    if value.Some? { DaysRead(value.value); } else { DaysRead([]); }
  }

  lemma ViewWords()
    ensures var data: Text, sources: Text, author: Text, xray: Text := "data", "sources", "author", "xray";
            data != sources && data != author && data != xray && sources != author && sources != xray && author != xray
  {
    assert "data"[0] == 'd' && "sources"[0] == 's' && "author"[0] == 'a' && "xray"[0] == 'x';
  }

  /** Every parameter is read by its name: the two bounds where they are dates, the selection
      under the author view alone, the step under the sources view alone, the view by its word,
      and the rail where it is collapsed. */
  lemma ReadsByName(search: Text)
    ensures ReadByName(search, Parse(search))
  {
    hide Get, Pairs, ParseDay, BoundRead;
    ViewWords();
    BoundsRead(Get(Pairs(search), "from"));
    BoundsRead(Get(Pairs(search), "to"));
  }

  function ViewWord(view: ViewMode): Option<Text> {
    match view
    case Layers => None
    case Data => Some("data")
    case Sources => Some("sources")
    case Author => Some("author")
    case XRay => Some("xray")
  }

  /** `found` is what is read under the name of a value written where `asked` and not blank. */
  predicate TextWritten(found: Option<Text>, asked: bool, value: Option<Text>) {
    found == if asked && value.Some? && value.value != "" then value else None
  }

  /** What a written string holds under each name. */
  predicate WrittenByName(s: AppState, out: Text) {
    var pairs := Pairs(out);
    Get(pairs, "view") == ViewWord(s.view) &&
    TextWritten(Get(pairs, "sel"), s.view == Author, s.sel) &&
    TextWritten(Get(pairs, "step"), s.view == Sources, s.step) &&
    TextWritten(Get(pairs, "from"), true, s.from) && TextWritten(Get(pairs, "to"), true, s.to)
  }

  /** Every field of a state stands in the string written under its own name. */
  lemma WritesByName(search: Text, s: AppState)
    requires Readable(Pairs(search))
    ensures WrittenByName(s, Written(search, s).value)
  {
    hide Own, Readable, Foreign, Pairs, Get, Written;
    WrittenPairs(search, s);
    var pairs := Pairs(search);
    forall name | name in WRITTEN_PARAMS
      ensures Get(Own(s) + Foreign(pairs), name) == Get(Own(s), name)
    {
      GetConcat(Own(s), Foreign(pairs), name);
      ForeignReads(pairs, name);
    }
    NamesApart();
    assert VIEW == "view" && SEL == "sel" && STEP == "step" && FROM == "from" && TO == "to";
    OwnReads(s, "view");
    OwnReads(s, "sel");
    OwnReads(s, "step");
    OwnReads(s, "from");
    OwnReads(s, "to");
  }

  /** The names of pairs, in order. */
  function NamesOf(pairs: seq<Text>): seq<Text> {
    seq(|pairs|, i requires 0 <= i < |pairs| => NameOf(pairs[i]))
  }

  function NameIf(present: bool, name: Text): seq<Text> {
    if present then [name] else []
  }

  /** The pairs a state is written as, in order: the view, the selection, the step and the two
      bounds, each where it is written. */
  lemma OwnInOrder(s: AppState)
    ensures NamesOf(Own(s))
         == NameIf(s.view != Layers, "view")
            + NameIf(s.view == Author && s.sel.Some? && s.sel.value != "", "sel")
            + NameIf(s.view == Sources && s.step.Some? && s.step.value != "", "step")
            + NameIf(s.from.Some? && s.from.value != "", "from") + NameIf(s.to.Some? && s.to.value != "", "to")
  {
    hide NameOf, NamesOf, Param, ViewName, NameIf;
    var view, sel, step, from, to := OwnParts(s);
    NamesConcat(view, sel);
    NamesConcat(view + sel, step);
    NamesConcat(view + sel + step, from);
    NamesConcat(view + sel + step + from, to);
  }

  lemma OwnParts(s: AppState) returns (view: seq<Text>, sel: seq<Text>, step: seq<Text>, from: seq<Text>, to: seq<Text>)
    ensures Own(s) == view + sel + step + from + to
    ensures NamesOf(view) == NameIf(s.view != Layers, "view")
    ensures NamesOf(sel) == NameIf(s.view == Author && s.sel.Some? && s.sel.value != "", "sel")
    ensures NamesOf(step) == NameIf(s.view == Sources && s.step.Some? && s.step.value != "", "step")
    ensures NamesOf(from) == NameIf(s.from.Some? && s.from.value != "", "from")
    ensures NamesOf(to) == NameIf(s.to.Some? && s.to.value != "", "to")
  {
    hide NamesOf, Param, ViewName;
    view := if s.view == Layers then [] else [VIEW + ['='] + ViewName(s.view)];
    sel := Param(SEL, if s.view == Author then s.sel else None);
    step := Param(STEP, if s.view == Sources then s.step else None);
    from, to := Param(FROM, s.from), Param(TO, s.to);
    NoNames();
    NamedOne(VIEW, ViewName(s.view));
    ParamName(SEL, if s.view == Author then s.sel else None);
    ParamName(STEP, if s.view == Sources then s.step else None);
    ParamName(FROM, s.from);
    ParamName(TO, s.to);
  }

  /** They stand before the foreign pairs, and a string with any pair begins with a question
      mark. */
  lemma OwnFirst(search: Text, s: AppState)
    requires Readable(Pairs(search))
    ensures var out := Written(search, s).value;
            Pairs(out) == Own(s) + Foreign(Pairs(search)) &&
            if Pairs(out) == [] then out == [] else out != [] && out[0] == '?'
  {
    hide Readable, Foreign, Pairs, Own;
    WrittenPairs(search, s);
  }

  lemma NamesConcat(a: seq<Text>, b: seq<Text>)
    ensures NamesOf(a + b) == NamesOf(a) + NamesOf(b)
  {
    hide NameOf;
  }

  lemma NamedOne(name: Text, raw: Text)
    requires name in WRITTEN_PARAMS
    ensures NamesOf([name + ['='] + raw]) == [name]
  {
    WrittenPlain(name);
    PairParts(name, raw);
    hide NameOf;
    assert NamesOf([name + ['='] + raw])[0] == name;
  }

  lemma ParamName(name: Text, value: Option<Text>)
    requires name in WRITTEN_PARAMS
    ensures NamesOf(Param(name, value)) == NameIf(value.Some? && value.value != "", name)
  {
    hide Encode, NamesOf;
    if value.Some? && value.value != "" {
      NamedOne(name, Encode(value.value));
    } else {
      NoNames();
    }
  }

  lemma NoNames()
    ensures NamesOf([]) == []
  {
  }
}
