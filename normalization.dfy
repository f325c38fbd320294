/**
 * Record normalisation: one line of a raw bid-win log becomes a ten-field
 * win record, is skipped (a JSON decode error), or raises (any other
 * exception, which the ingestion loop does not catch).
 */
module Normalization {
  import opened Wrappers
  import opened JsonValue

  /**
   * The foreign parsers the normaliser calls, as total functions that return
   * None where the Python call raises:
   *  - loads: `json.loads` on a str (None = JSONDecodeError);
   *  - toFloat: `float(...)` on a str (None = ValueError);
   *  - toEpoch: `int(datetime.strptime(s, "%Y-%m-%dT%H:%M:%S.%fZ").timestamp())`
   *    (None = ValueError).
   */
  datatype Decoders = Decoders(
    loads: string -> Option<Json>,
    toFloat: string -> Option<real>,
    toEpoch: string -> Option<int>)

  /** The normalised document inserted into the raw collection. */
  datatype WinRecord = WinRecord(
    auctionId: Json,
    campaignId: Json,
    creativeId: Json,
    adgroupId: Json,
    userAgent: Json,
    site: Json,
    geo: Json,
    exchange: Json,
    price: real,
    time: int)

  /** What happens to one line: a record, a skipped line, or an exception that escapes the loop. */
  datatype LineOutcome = Parsed(record: WinRecord) | Skipped | Crashed(error: PyError)

  const NA: Json := JStr("NA")
  const Others: Json := JStr("Others")
  const PriceUnit: string := "USD/1M"

  /** `s` holds the price unit starting at index `i`. */
  ghost predicate UnitAt(s: string, i: int) {
    0 <= i && i + |PriceUnit| <= |s| && s[i..i + |PriceUnit|] == PriceUnit
  }

  ghost predicate HasNoUnit(s: string) {
    forall i :: !UnitAt(s, i)
  }

  /**
   * `s.replace("USD/1M", "")`: one left-to-right scan that removes each
   * non-overlapping occurrence it meets.
   */
  function StripPriceUnit(s: string): (r: string)
    ensures |r| <= |s|
    ensures (|s| - |r|) % |PriceUnit| == 0
    decreases |s|
  {
    if |s| < |PriceUnit| then s
    else if s[..|PriceUnit|] == PriceUnit then StripPriceUnit(s[|PriceUnit|..])
    else [s[0]] + StripPriceUnit(s[1..])
  }

  /** A string without the unit passes through unchanged. */
  lemma {:induction false} StripWithoutUnit(s: string)
    requires HasNoUnit(s)
    ensures StripPriceUnit(s) == s
    decreases |s|
  {
    if |s| >= |PriceUnit| {
      assert !UnitAt(s, 0);
      assert HasNoUnit(s[1..]) by {
        forall i ensures !UnitAt(s[1..], i) {
          if UnitAt(s[1..], i) {
            assert s[1..][i..i + |PriceUnit|] == s[i + 1..i + 1 + |PriceUnit|];
            assert UnitAt(s, i + 1);
          }
        }
      }
      StripWithoutUnit(s[1..]);
      assert [s[0]] + s[1..] == s;
    }
  }

  /** A price written as a number followed by the unit loses exactly the unit. */
  lemma {:induction false} StripUnitSuffix(digits: string)
    requires forall i :: 0 <= i < |digits| ==> digits[i] != 'U'
    ensures StripPriceUnit(digits + PriceUnit) == digits
    decreases |digits|
  {
    var s := digits + PriceUnit;
    if digits == [] {
      assert s == PriceUnit;
      assert s[|PriceUnit|..] == [];
    } else {
      assert s[0] == digits[0] != 'U';
      assert s[..|PriceUnit|][0] == s[0];
      assert s[1..] == digits[1..] + PriceUnit;
      StripUnitSuffix(digits[1..]);
      assert [digits[0]] + digits[1..] == digits;
    }
  }

  /** Dropping the first character keeps "no unit starts before the final one". */
  lemma NoEarlierUnitTail(a: string)
    requires a != []
    requires forall i :: 0 <= i < |a| ==> !UnitAt(a + PriceUnit, i)
    ensures forall i :: 0 <= i < |a[1..]| ==> !UnitAt(a[1..] + PriceUnit, i)
  {
    forall i | 0 <= i < |a[1..]| ensures !UnitAt(a[1..] + PriceUnit, i) {
      assert !UnitAt(a + PriceUnit, i + 1);
      assert (a[1..] + PriceUnit)[i..i + |PriceUnit|] == (a + PriceUnit)[i + 1..i + 1 + |PriceUnit|];
    }
  }

  /** One step of the scan at the unit: it is removed and the scan resumes after it. */
  lemma StripAtUnit(b: string)
    ensures StripPriceUnit(PriceUnit + b) == StripPriceUnit(b)
  {
    var s := PriceUnit + b;
    assert s[..|PriceUnit|] == PriceUnit;
    assert s[|PriceUnit|..] == b;
  }

  /** One step of the scan before the leftmost unit: the first character is kept. */
  lemma StripBeforeUnit(a: string, b: string)
    requires a != []
    requires !UnitAt(a + PriceUnit, 0)
    ensures StripPriceUnit(a + PriceUnit + b) == [a[0]] + StripPriceUnit(a[1..] + PriceUnit + b)
  {
    var s := a + PriceUnit + b;
    assert (a + PriceUnit)[..|PriceUnit|] == s[..|PriceUnit|];
    assert s[1..] == a[1..] + PriceUnit + b;
  }

  /**
   * How `replace` treats every string: the text before the leftmost
   * occurrence of the unit is kept as it is, that occurrence is removed, and
   * the scan resumes right after it.
   */
  lemma {:induction false} StripAtLeftmost(a: string, b: string)
    requires forall i :: 0 <= i < |a| ==> !UnitAt(a + PriceUnit, i)
    ensures StripPriceUnit(a + PriceUnit + b) == a + StripPriceUnit(b)
    decreases |a|
  {
    if a == [] {
      StripAtUnit(b);
      assert a + PriceUnit + b == PriceUnit + b;
    } else {
      var rest := StripPriceUnit(b);
      assert StripPriceUnit(a[1..] + PriceUnit + b) == a[1..] + rest by {
        NoEarlierUnitTail(a);
        StripAtLeftmost(a[1..], b);
      }
      assert StripPriceUnit(a + PriceUnit + b) == [a[0]] + StripPriceUnit(a[1..] + PriceUnit + b) by {
        StripBeforeUnit(a, b);
      }
      assert [a[0]] + (a[1..] + rest) == a + rest;
    }
  }

  /** One step of the scan at a position where the unit does not start. */
  lemma StripKeeps(s: string)
    requires |s| >= |PriceUnit| && s[0] != 'U'
    ensures StripPriceUnit(s) == [s[0]] + StripPriceUnit(s[1..])
  {
    assert s[..|PriceUnit|][0] != PriceUnit[0];
  }

  /** The scan is single-pass: removing the inner unit can join a new one, which stays. */
  lemma StripIsSinglePass(s: string)
    requires s == "USDUSD/1M/1M"
    ensures StripPriceUnit(s) == "USD/1M"
  {
    assert StripPriceUnit(s[3..]) == "/1M" by {
      assert s[3..][..|PriceUnit|] == PriceUnit;
      assert s[3..][|PriceUnit|..] == "/1M";
    }
    assert StripPriceUnit(s[2..]) == "D/1M" by {
      StripKeeps(s[2..]);
      assert s[2..][1..] == s[3..];
    }
    assert StripPriceUnit(s[1..]) == "SD/1M" by {
      StripKeeps(s[1..]);
      assert s[1..][1..] == s[2..];
    }
    assert s[..|PriceUnit|] != PriceUnit by { assert s[3] != PriceUnit[3]; }
  }

  /**
   * Geo resolution (the two `.get` chains): `device.geo.country`, and only when
   * that yields the sentinel "Others", `device.ext.geo_criteria_id`, itself
   * defaulting to "Others". A `device`, `geo` or (on the fallback) `ext`
   * member that is not an object raises.
   */
  function ResolveGeo(bid: map<string, Json>): Result<Json> {
    var device := Get(bid, "device", EmptyObject);
    if !device.JObj? then Err(AttributeError)
    else
      var geo := Get(device.fields, "geo", EmptyObject);
      if !geo.JObj? then Err(AttributeError)
      else
        var country := Get(geo.fields, "country", Others);
        if country != Others then Ok(country)
        else
          var ext := Get(device.fields, "ext", EmptyObject);
          if !ext.JObj? then Err(AttributeError)
          else Ok(Get(ext.fields, "geo_criteria_id", Others))
  }

  /**
   * The fallback order, stated on where values sit in the bid request:
   * a country other than "Others" wins whatever `ext` holds; an absent or
   * "Others" country defers to `geo_criteria_id`, or "Others" when that is
   * absent too; and resolution raises exactly when a member on the path it
   * takes is present but not an object.
   */
  lemma GeoFallback(bid: map<string, Json>)
    ensures var country := Member(Member(Member(Some(JObj(bid)), "device"), "geo"), "country");
            country.Some? && country.value != Others ==> ResolveGeo(bid) == Ok(country.value)
    ensures var country := Member(Member(Member(Some(JObj(bid)), "device"), "geo"), "country");
            var criteria := Member(Member(Member(Some(JObj(bid)), "device"), "ext"), "geo_criteria_id");
            ResolveGeo(bid).Ok? && (country.None? || country == Some(Others)) ==>
              ResolveGeo(bid).value == (if criteria.Some? then criteria.value else Others)
    ensures ResolveGeo(bid) == Ok(Others) ==>
              Member(Member(Member(Some(JObj(bid)), "device"), "ext"), "geo_criteria_id") in {None, Some(Others)}
    ensures var device := Member(Some(JObj(bid)), "device");
            ResolveGeo(bid).Err? <==>
              PresentNonObject(device)
              || PresentNonObject(Member(device, "geo"))
              || (PresentNonObject(Member(device, "ext"))
                  && Member(Member(device, "geo"), "country") in {None, Some(Others)})
  {
  }

  /** `float(data.get("winPrice", "0").replace("USD/1M", ""))`. */
  function ParsePrice(data: map<string, Json>, dec: Decoders): Result<real> {
    match Get(data, "winPrice", JStr("0"))
    case JStr(s) =>
      (match dec.toFloat(StripPriceUnit(s))
       case Some(p) => Ok(p)
       case None => Err(ValueError))
    case _ => Err(AttributeError)
  }

  /**
   * An absent price is parsed from "0"; a price that is not a string raises
   * AttributeError; a string without the unit is handed to `float` as it is.
   */
  lemma PriceDefaults(data: map<string, Json>, dec: Decoders)
    ensures "winPrice" !in data ==>
              ParsePrice(data, dec) == (match dec.toFloat("0") case Some(p) => Ok(p) case None => Err(ValueError))
    ensures "winPrice" in data && !data["winPrice"].JStr? ==> ParsePrice(data, dec) == Err(AttributeError)
    ensures "winPrice" in data && data["winPrice"].JStr? && HasNoUnit(data["winPrice"].s) ==>
              ParsePrice(data, dec) ==
                (match dec.toFloat(data["winPrice"].s) case Some(p) => Ok(p) case None => Err(ValueError))
  {
    if "winPrice" in data && data["winPrice"].JStr? && HasNoUnit(data["winPrice"].s) {
      StripWithoutUnit(data["winPrice"].s);
    }
  }

  /** The time field, `int(strptime(t, ...).timestamp()) if t else 0` with `t = bid.get("timestamp")`. */
  function ParseTime(bid: map<string, Json>, dec: Decoders): Result<int> {
    var t := Get(bid, "timestamp", JNull);
    if !Truthy(t) then Ok(0)
    else match t
      case JStr(s) =>
        (match dec.toEpoch(s)
         case Some(e) => Ok(e)
         case None => Err(ValueError))
      case _ => Err(TypeError)
  }

  /**
   * An absent or falsy timestamp gives 0; a truthy non-string raises
   * TypeError; a non-empty string gives the time it parses to, and every
   * non-zero time comes from such a parse; ValueError is raised exactly when
   * a non-empty string does not parse.
   */
  lemma TimeDefaults(bid: map<string, Json>, dec: Decoders)
    ensures "timestamp" !in bid ==> ParseTime(bid, dec) == Ok(0)
    ensures "timestamp" in bid && !Truthy(bid["timestamp"]) ==> ParseTime(bid, dec) == Ok(0)
    ensures "timestamp" in bid && Truthy(bid["timestamp"]) && !bid["timestamp"].JStr? ==>
              ParseTime(bid, dec) == Err(TypeError)
    ensures ParseTime(bid, dec).Ok? && ParseTime(bid, dec).value != 0 ==>
              "timestamp" in bid && bid["timestamp"].JStr? && dec.toEpoch(bid["timestamp"].s) == Some(ParseTime(bid, dec).value)
    ensures "timestamp" in bid && bid["timestamp"].JStr? && bid["timestamp"].s != ""
              && dec.toEpoch(bid["timestamp"].s).Some? ==>
              ParseTime(bid, dec) == Ok(dec.toEpoch(bid["timestamp"].s).value)
    ensures ParseTime(bid, dec) == Err(ValueError) <==>
              "timestamp" in bid && bid["timestamp"].JStr? && bid["timestamp"].s != ""
              && dec.toEpoch(bid["timestamp"].s).None?
  {
  }

  /**
   * The body of the per-line `try` block, in the source's evaluation order:
   * decode the line, read the four ids, decode the nested bid request, read
   * user agent and site, resolve geo, read exchange, parse price, parse time.
   */
  function NormalizeLine(line: string, dec: Decoders): (out: LineOutcome)
  {
    match dec.loads(line)
    case None => Skipped
    case Some(data) =>
      if !data.JObj? then Crashed(AttributeError)
      else
        var top := data.fields;
        var bidRequest := Get(top, "bidRequestString", JStr("{}"));
        if !bidRequest.JStr? then Crashed(TypeError)
        else
          match dec.loads(bidRequest.s)
          case None => Skipped
          case Some(nested) =>
            if !nested.JObj? then Crashed(AttributeError)
            else
              var bid := nested.fields;
              match ResolveGeo(bid)
              case Err(e) => Crashed(e)
              case Ok(geo) =>
                match ParsePrice(top, dec)
                case Err(e) => Crashed(e)
                case Ok(price) =>
                  match ParseTime(bid, dec)
                  case Err(e) => Crashed(e)
                  case Ok(time) =>
                    Parsed(WinRecord(
                      Get(top, "auctionId", NA),
                      Get(top, "biddingMainAccount", NA),
                      Get(top, "bidResponseCreativeName", NA),
                      Get(top, "biddingSubAccount", NA),
                      Get(bid, "userAgent", Others),
                      Get(bid, "url", Others),
                      geo,
                      Get(bid, "exchange", Others),
                      price,
                      time))
  }

  /** A line is skipped exactly when one of its two `json.loads` calls fails to decode. */
  lemma SkipsExactlyOnDecodeError(line: string, dec: Decoders)
    ensures NormalizeLine(line, dec) == Skipped <==>
              || dec.loads(line).None?
              || (dec.loads(line).Some? && dec.loads(line).value.JObj?
                  && Get(dec.loads(line).value.fields, "bidRequestString", JStr("{}")).JStr?
                  && dec.loads(Get(dec.loads(line).value.fields, "bidRequestString", JStr("{}")).s).None?)
  {
  }

  /** An empty `bidRequestString` is a decode error, so its line is skipped rather than defaulted. */
  lemma EmptyBidRequestIsSkipped(line: string, dec: Decoders, top: map<string, Json>)
    requires dec.loads("") == None
    requires dec.loads(line) == Some(JObj(top))
    requires "bidRequestString" in top && top["bidRequestString"] == JStr("")
    ensures NormalizeLine(line, dec) == Skipped
  {
  }

  /**
   * Every field of a produced record is the source field when present and the
   * default when absent: "NA" for the four ids, "Others" for user agent,
   * site and exchange; geo, price and time are the resolved values.
   */
  lemma RecordFieldsDefault(line: string, dec: Decoders)
    requires NormalizeLine(line, dec).Parsed?
    ensures dec.loads(line).Some? && dec.loads(line).value.JObj?
    ensures var top := dec.loads(line).value.fields;
            var rec := NormalizeLine(line, dec).record;
            && ("auctionId" in top ==> rec.auctionId == top["auctionId"])
            && ("auctionId" !in top ==> rec.auctionId == NA)
            && ("biddingMainAccount" in top ==> rec.campaignId == top["biddingMainAccount"])
            && ("biddingMainAccount" !in top ==> rec.campaignId == NA)
            && ("bidResponseCreativeName" in top ==> rec.creativeId == top["bidResponseCreativeName"])
            && ("bidResponseCreativeName" !in top ==> rec.creativeId == NA)
            && ("biddingSubAccount" in top ==> rec.adgroupId == top["biddingSubAccount"])
            && ("biddingSubAccount" !in top ==> rec.adgroupId == NA)
            && ParsePrice(top, dec) == Ok(rec.price)
    ensures var top := dec.loads(line).value.fields;
            var bidRequest := Get(top, "bidRequestString", JStr("{}"));
            bidRequest.JStr? && dec.loads(bidRequest.s).Some? && dec.loads(bidRequest.s).value.JObj?
    ensures var top := dec.loads(line).value.fields;
            var bid := dec.loads(Get(top, "bidRequestString", JStr("{}")).s).value.fields;
            var rec := NormalizeLine(line, dec).record;
            && ("userAgent" in bid ==> rec.userAgent == bid["userAgent"])
            && ("userAgent" !in bid ==> rec.userAgent == Others)
            && ("url" in bid ==> rec.site == bid["url"])
            && ("url" !in bid ==> rec.site == Others)
            && ("exchange" in bid ==> rec.exchange == bid["exchange"])
            && ("exchange" !in bid ==> rec.exchange == Others)
            && ResolveGeo(bid) == Ok(rec.geo)
            && ParseTime(bid, dec) == Ok(rec.time)
  {
  }

  /** A line whose nested document is well formed but whose price does not parse raises ValueError. */
  lemma BadPriceRaises(line: string, dec: Decoders, top: map<string, Json>, bid: map<string, Json>)
    requires dec.loads(line) == Some(JObj(top))
    requires Get(top, "bidRequestString", JStr("{}")).JStr?
    requires dec.loads(Get(top, "bidRequestString", JStr("{}")).s) == Some(JObj(bid))
    requires ResolveGeo(bid).Ok?
    requires "winPrice" in top && top["winPrice"].JStr?
    requires dec.toFloat(StripPriceUnit(top["winPrice"].s)) == None
    ensures NormalizeLine(line, dec) == Crashed(ValueError)
  {
  }

  /**
   * A line whose timestamp is a non-empty string that does not parse raises
   * ValueError once its price has parsed: `strptime` is not guarded either.
   */
  lemma BadTimeRaises(line: string, dec: Decoders, top: map<string, Json>, bid: map<string, Json>)
    requires dec.loads(line) == Some(JObj(top))
    requires Get(top, "bidRequestString", JStr("{}")).JStr?
    requires dec.loads(Get(top, "bidRequestString", JStr("{}")).s) == Some(JObj(bid))
    requires ResolveGeo(bid).Ok? && ParsePrice(top, dec).Ok?
    requires "timestamp" in bid && bid["timestamp"].JStr? && bid["timestamp"].s != ""
    requires dec.toEpoch(bid["timestamp"].s) == None
    ensures NormalizeLine(line, dec) == Crashed(ValueError)
  {
  }

  /**
   * A line becomes a record exactly when nothing on the way raises or fails
   * to decode: the line decodes to an object, its `bidRequestString` is a
   * string that decodes to an object, and geo, price and time all resolve.
   */
  lemma ParsedExactlyWhenNothingRaises(line: string, dec: Decoders)
    ensures NormalizeLine(line, dec).Parsed? <==>
              && dec.loads(line).Some? && dec.loads(line).value.JObj?
              && var top := dec.loads(line).value.fields;
                 var bidRequest := Get(top, "bidRequestString", JStr("{}"));
                 && bidRequest.JStr?
                 && dec.loads(bidRequest.s).Some? && dec.loads(bidRequest.s).value.JObj?
                 && var bid := dec.loads(bidRequest.s).value.fields;
                    ResolveGeo(bid).Ok? && ParsePrice(top, dec).Ok? && ParseTime(bid, dec).Ok?
  {
  }

  /**
   * The line `{}`: every field takes its default, the price is `float("0")`
   * and the time is 0.
   */
  lemma AllAbsentGivesDefaults(line: string, dec: Decoders)
    requires dec.loads(line) == Some(EmptyObject) && dec.loads("{}") == Some(EmptyObject)
    requires dec.toFloat("0") == Some(0.0)
    ensures NormalizeLine(line, dec) == Parsed(WinRecord(NA, NA, NA, NA, Others, Others, Others, Others, 0.0, 0))
  {
    assert StripPriceUnit("0") == "0";
  }

  /** A typical price "<number>USD/1M" is parsed from the number alone. */
  lemma UnitSuffixedPrice(data: map<string, Json>, dec: Decoders, digits: string)
    requires forall i :: 0 <= i < |digits| ==> digits[i] != 'U'
    requires "winPrice" in data && data["winPrice"] == JStr(digits + PriceUnit)
    ensures ParsePrice(data, dec) == (match dec.toFloat(digits) case Some(p) => Ok(p) case None => Err(ValueError))
  {
    StripUnitSuffix(digits);
  }
}
