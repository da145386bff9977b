/** The proxy's scraper of the miner's status page, `NerdMinerHTMLParser`
    (server.py:44-110), run over the events Python's `HTMLParser` delivers:
    start tags with their attributes, end tags, and text. A text counts as
    a value only inside a `<span class="val">`, and the most recent
    non-blank text before it says which value it is.

    The regular-expression searches of the text handler are taken as
    already done: each text event carries what each pattern found, and a
    number whose digits `float()` rejects (such as `1.2.3`) is carried as
    `None`, which makes the parse fail. */
module Scraper {
  import opened Wrappers
  import opened Text
  import opened Records

  /** One attribute as `HTMLParser` reports it; `value` is `None` for an
      attribute written without a value. */
  datatype Attr = Attr(name: string, value: Option<string>)

  /** A hashrate found by `([\d.]+)\s*(h/s|kh/s|mh/s)`: the number (if
      `float()` accepts it) and the unit as written, in any case. */
  datatype RateMatch = RateMatch(amount: Option<real>, unit: string)

  /** What the searches of the text handler find in one stripped text:
      the hashrate pattern, the first run of digits, the first run of
      digits and dots with its `float()` value, and the temperature pattern
      with its value already converted to Celsius and rounded. */
  datatype Matches = Matches(
    rate: Option<RateMatch>,
    integer: Option<nat>,
    number: Option<Option<real>>,
    temperature: Option<Option<real>>)

  const NoMatches := Matches(None, None, None, None)

  datatype Event =
    | StartTag(tag: string, attrs: seq<Attr>)
    | EndTag(tag: string)
    | Data(text: string, found: Matches)

  /** `self.data`, `self.in_val_span` and `self.last_text`. */
  datatype Parser = Parser(data: Payload, inValSpan: bool, lastText: string)

  const Fresh := Parser(EmptyPayload, false, "")

  /** `float()` raised on a matched number; the whole parse is abandoned. */
  datatype ScrapeError = BadNumber

  // ---------------------------------------------------------------------
  // Tags (server.py:55-63)
  // ---------------------------------------------------------------------

  /** `attrs[i]` is the last attribute called `name`. */
  predicate LastWithName(attrs: seq<Attr>, name: string, i: int) {
    && 0 <= i < |attrs| && attrs[i].name == name
    && forall j :: i < j < |attrs| ==> attrs[j].name != name
  }

  /** Where the last attribute called `name` is, if any. */
  function LastIndex(attrs: seq<Attr>, name: string): (r: Option<nat>)
    ensures r.None? <==> forall i :: 0 <= i < |attrs| ==> attrs[i].name != name
    ensures r.Some? ==> LastWithName(attrs, name, r.value)
    decreases |attrs|
  {
    if |attrs| == 0 then None
    else if attrs[|attrs| - 1].name == name then Some(|attrs| - 1)
    else
      var init := attrs[..|attrs| - 1];
      assert forall i :: 0 <= i < |init| ==> init[i] == attrs[i];
      LastIndex(init, name)
  }

  /** `dict(attrs).get(name)`: the value of the last attribute with that
      name, `None` when there is none. */
  function AttrValue(attrs: seq<Attr>, name: string): (r: Option<Option<string>>)
    ensures r.None? <==> forall i :: 0 <= i < |attrs| ==> attrs[i].name != name
    ensures r.Some? ==> exists i :: LastWithName(attrs, name, i) && attrs[i].value == r.value
  {
    match LastIndex(attrs, name)
    case None => None
    case Some(i) => Some(attrs[i].value)
  }

  /** The tag opens a value span: a `span` whose `class` attribute is
      exactly `val`. */
  predicate OpensValSpan(tag: string, attrs: seq<Attr>) {
    tag == "span" && AttrValue(attrs, "class") == Some(Some("val"))
  }

  /** `handle_starttag`: may enter a value span, never leaves one. */
  function HandleStartTag(p: Parser, tag: string, attrs: seq<Attr>): (r: Parser)
    ensures r.data == p.data && r.lastText == p.lastText
    ensures r.inValSpan <==> p.inValSpan || OpensValSpan(tag, attrs)
  {
    if OpensValSpan(tag, attrs) then p.(inValSpan := true) else p
  }

  /** `handle_endtag`: any closing `span` leaves the value span. */
  function HandleEndTag(p: Parser, tag: string): (r: Parser)
    ensures r.data == p.data && r.lastText == p.lastText
    ensures r.inValSpan <==> p.inValSpan && tag != "span"
  {
    if tag == "span" then p.(inValSpan := false) else p
  }

  // ---------------------------------------------------------------------
  // Text (server.py:65-110)
  // ---------------------------------------------------------------------

  /** What a heading announces, tested in the handler's order. */
  datatype Label = HashRate | AcceptedShares | BestDifficulty | Temperature | Unlabelled

  /** `word in heading.lower()`. */
  predicate Mentions(heading: string, word: string) {
    Contains(Lower(heading), word)
  }

  /** The `if`/`elif` chain on `self.last_text.lower()`. */
  function Classify(heading: string): (l: Label)
    ensures l == HashRate <==> Mentions(heading, "hash rate")
    ensures l == AcceptedShares <==>
      !Mentions(heading, "hash rate") && Mentions(heading, "accepted") && Mentions(heading, "share")
    ensures l == BestDifficulty <==>
      && !Mentions(heading, "hash rate") && !(Mentions(heading, "accepted") && Mentions(heading, "share"))
      && Mentions(heading, "best") && Mentions(heading, "diff")
    ensures l == Temperature <==>
      && !Mentions(heading, "hash rate") && !(Mentions(heading, "accepted") && Mentions(heading, "share"))
      && !(Mentions(heading, "best") && Mentions(heading, "diff")) && Mentions(heading, "temp")
  {
    var s := Lower(heading);
    if Contains(s, "hash rate") then HashRate
    else if Contains(s, "accepted") && Contains(s, "share") then AcceptedShares
    else if Contains(s, "best") && Contains(s, "diff") then BestDifficulty
    else if Contains(s, "temp") then Temperature
    else Unlabelled
  }

  /** The hashrate in H/s: kilo- and mega-hashes are scaled, anything else
      the pattern accepts (`h/s`) is taken as is. The unit is compared after
      `lower()`, so any case counts, and so does a Kelvin sign for `k`. */
  function ToHashesPerSecond(amount: real, unit: string): (h: real)
    ensures Lower(unit) == "kh/s" ==> h == amount * 1000.0
    ensures Lower(unit) == "mh/s" ==> h == amount * 1000000.0
    ensures Lower(unit) != "kh/s" && Lower(unit) != "mh/s" ==> h == amount
  {
    var u := Lower(unit);
    if u == "kh/s" then amount * 1000.0
    else if u == "mh/s" then amount * 1000000.0
    else amount
  }

  /** Stores a value according to what its heading announced. */
  function Store(data: Payload, kind: Label, found: Matches): (r: Result<Payload, ScrapeError>)
    ensures r.Success? ==> r.value.valids == data.valids && r.value.uptime == data.uptime
    ensures r.Success? && r.value.hashrate != data.hashrate ==> kind == HashRate
    ensures r.Success? && r.value.shares != data.shares ==> kind == AcceptedShares
    ensures r.Success? && r.value.acceptedShares != data.acceptedShares ==> kind == AcceptedShares
    ensures r.Success? && r.value.bestDiff != data.bestDiff ==> kind == BestDifficulty
    ensures r.Success? && r.value.temp != data.temp ==> kind == Temperature
    ensures kind == AcceptedShares && found.integer.Some? ==>
      r == Success(data.(acceptedShares := Some(found.integer.value), shares := Some(found.integer.value)))
    ensures kind == HashRate && found.rate.Some? && found.rate.value.amount.Some? ==>
      r == Success(data.(hashrate := Some(ToHashesPerSecond(found.rate.value.amount.value, found.rate.value.unit))))
    ensures kind == BestDifficulty && found.number.Some? && found.number.value.Some? ==>
      r == Success(data.(bestDiff := found.number.value))
    ensures kind == Temperature && found.temperature.Some? && found.temperature.value.Some? ==>
      r == Success(data.(temp := found.temperature.value))
    ensures || kind == Unlabelled
            || (kind == HashRate && found.rate.None?)
            || (kind == AcceptedShares && found.integer.None?)
            || (kind == BestDifficulty && found.number.None?)
            || (kind == Temperature && found.temperature.None?)
            ==> r == Success(data)
    ensures r.Failure? <==>
      || (kind == HashRate && found.rate.Some? && found.rate.value.amount.None?)
      || (kind == BestDifficulty && found.number == Some(None))
      || (kind == Temperature && found.temperature == Some(None))
  {
    match kind
    case HashRate =>
      (match found.rate
       case None => Success(data)
       case Some(RateMatch(amount, unit)) =>
         if amount.None? then Failure(BadNumber)
         else Success(data.(hashrate := Some(ToHashesPerSecond(amount.value, unit)))))
    case AcceptedShares =>
      (match found.integer
       case None => Success(data)
       case Some(n) => Success(data.(acceptedShares := Some(n), shares := Some(n))))
    case BestDifficulty =>
      (match found.number
       case None => Success(data)
       case Some(None) => Failure(BadNumber)
       case Some(Some(x)) => Success(data.(bestDiff := Some(x))))
    case Temperature =>
      (match found.temperature
       case None => Success(data)
       case Some(None) => Failure(BadNumber)
       case Some(Some(c)) => Success(data.(temp := Some(c))))
    case Unlabelled => Success(data)
  }

  /** `handle_data(text)`: blank text is ignored entirely; otherwise a value
      inside a value span is stored according to the previous heading, and
      the stripped text becomes the new heading. */
  function HandleData(p: Parser, text: string, found: Matches): (r: Result<Parser, ScrapeError>)
    ensures |PyStrip(text)| == 0 ==> r == Success(p)
    ensures r.Success? && |PyStrip(text)| > 0 ==> r.value.lastText == PyStrip(text)
    ensures r.Success? ==> r.value.inValSpan == p.inValSpan
    ensures !p.inValSpan ==> r.Success? && r.value.data == p.data
    ensures p.inValSpan && |PyStrip(text)| > 0 ==>
      match Store(p.data, Classify(p.lastText), found)
      case Success(d) => r == Success(Parser(d, true, PyStrip(text)))
      case Failure(e) => r == Failure(e)
  {
    var t := PyStrip(text);
    if |t| == 0 then Success(p)
    else if !p.inValSpan then Success(p.(lastText := t))
    else
      match Store(p.data, Classify(p.lastText), found)
      case Success(d) => Success(Parser(d, true, t))
      case Failure(e) => Failure(e)
  }

  function Handle(p: Parser, e: Event): Result<Parser, ScrapeError> {
    match e
    case StartTag(tag, attrs) => Success(HandleStartTag(p, tag, attrs))
    case EndTag(tag) => Success(HandleEndTag(p, tag))
    case Data(text, found) => HandleData(p, text, found)
  }

  /** `parser.feed(html)`: the events in order; the first `float()` failure
      abandons the parse. */
  function Feed(p: Parser, es: seq<Event>): Result<Parser, ScrapeError>
    decreases |es|
  {
    if |es| == 0 then Success(p)
    else match Handle(p, es[0])
      case Failure(e) => Failure(e)
      case Success(q) => Feed(q, es[1..])
  }

  // ---------------------------------------------------------------------
  // Properties of a whole page
  // ---------------------------------------------------------------------

  /** What a scraped payload looks like: the two share counters are either
      both unset or set to the same number, and the page never supplies
      `valids` or `uptime`. */
  predicate ScrapedShape(d: Payload) {
    d.acceptedShares == d.shares && d.valids.None? && d.uptime.None?
  }

  /** Every accepted-shares value sets both counters to the same integer,
      nothing else sets either, and nothing sets `valids` or `uptime`; so a
      whole page keeps the shape. */
  lemma {:induction false} FeedKeepsScrapedShape(p: Parser, es: seq<Event>)
    requires ScrapedShape(p.data)
    ensures Feed(p, es).Success? ==> ScrapedShape(Feed(p, es).value.data)
    decreases |es|
  {
    if |es| > 0 {
      var r := Handle(p, es[0]);
      HandleKeepsScrapedShape(p, es[0]);
      if r.Success? {
        FeedKeepsScrapedShape(r.value, es[1..]);
      }
    }
  }

  /** One event keeps the shape. */
  lemma HandleKeepsScrapedShape(p: Parser, e: Event)
    requires ScrapedShape(p.data)
    ensures Handle(p, e).Success? ==> ScrapedShape(Handle(p, e).value.data)
  {
    if e.Data? && p.inValSpan && |PyStrip(e.text)| > 0 {
      var r := Store(p.data, Classify(p.lastText), e.found);
      assert r.Success? ==> ScrapedShape(r.value);
    }
  }

  /** A page that never opens a `<span class="val">` yields no data, and
      never fails. */
  lemma {:induction false} NoValueSpanNoData(p: Parser, es: seq<Event>)
    requires !p.inValSpan
    requires forall i :: 0 <= i < |es| ==> !(es[i].StartTag? && OpensValSpan(es[i].tag, es[i].attrs))
    ensures Feed(p, es).Success? && Feed(p, es).value.data == p.data
    decreases |es|
  {
    if |es| > 0 {
      var q := Handle(p, es[0]).value;
      assert !q.inValSpan;
      NoValueSpanNoData(q, es[1..]);
    }
  }

  const HashRateHeading := "Hash Rate"
  const KiloValue := "12.5 KH/s"
  const KiloFound := NoMatches.(rate := Some(RateMatch(Some(12.5), "KH/s")))

  lemma HeadingRecorded()
    ensures HandleData(Fresh, HashRateHeading, NoMatches) == Success(Fresh.(lastText := HashRateHeading))
  {
    var h := HashRateHeading;
    assert !IsPySpace(h[0]) && !IsPySpace(h[|h| - 1]);
    TrimPadded([], h, [], IsPySpace);
    assert [] + h + [] == h;
  }

  lemma KiloValueStored()
    ensures HandleData(Parser(EmptyPayload, true, HashRateHeading), KiloValue, KiloFound)
      == Success(Parser(EmptyPayload.(hashrate := Some(12500.0)), true, KiloValue))
  {
    var v := KiloValue;
    assert !IsPySpace(v[0]) && !IsPySpace(v[|v| - 1]);
    TrimPadded([], v, [], IsPySpace);
    assert [] + v + [] == v;
    HeadingIsHashRate();
    KiloScale();
  }

  lemma HeadingIsHashRate()
    ensures Classify(HashRateHeading) == HashRate
  {
    assert Lower(HashRateHeading) == "hash rate";
    assert IsPrefix("hash rate", "hash rate");
  }

  lemma KiloScale()
    ensures ToHashesPerSecond(12.5, "KH/s") == 12500.0
  {
    assert Lower("KH/s") == "kh/s";
  }

  /** The pattern is matched ignoring case, and a unit spelled with the
      Kelvin sign matches `kh/s`; `lower()` turns it into `kh/s`, so it is
      scaled by 1000 as well. */
  lemma KelvinKiloScaled(unit: string)
    requires unit == [KelvinSign] + "H/s"
    ensures ToHashesPerSecond(12.5, unit) == 12500.0
  {
    assert Lower(unit) == "kh/s";
  }

  /** The start tag `<span class="val">`. */
  const ValSpan := StartTag("span", [Attr("class", Some("val"))])

  lemma ValSpanOpens()
    ensures OpensValSpan(ValSpan.tag, ValSpan.attrs)
  {
    var attrs := [Attr("class", Some("val"))];
    assert LastIndex(attrs, "class") == Some(0);
  }

  /** Feeding one more event continues from where the first ones left off. */
  lemma {:induction false} FeedCons(p: Parser, e: Event, rest: seq<Event>, q: Parser)
    requires Handle(p, e) == Success(q)
    ensures Feed(p, [e] + rest) == Feed(q, rest)
  {
    assert ([e] + rest)[0] == e && ([e] + rest)[1..] == rest;
  }

  /** A value span around `12.5 KH/s` announced by `Hash Rate` yields a
      hashrate of 12500 H/s. */
  lemma KiloHashesScaled(page: seq<Event>)
    requires page == [Data(HashRateHeading, NoMatches), ValSpan, Data(KiloValue, KiloFound)]
    ensures Feed(Fresh, page) == Success(Parser(EmptyPayload.(hashrate := Some(12500.0)), true, KiloValue))
  {
    var p1 := Fresh.(lastText := HashRateHeading);
    var p2 := Parser(EmptyPayload, true, HashRateHeading);
    var p3 := Parser(EmptyPayload.(hashrate := Some(12500.0)), true, KiloValue);
    HeadingRecorded();
    ValSpanOpens();
    KiloValueStored();
    assert page == [page[0]] + ([page[1]] + ([page[2]] + []));
    FeedCons(Fresh, page[0], [page[1]] + ([page[2]] + []), p1);
    FeedCons(p1, page[1], [page[2]] + [], p2);
    FeedCons(p2, page[2], [], p3);
  }
}
