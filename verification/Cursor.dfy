/** Opaque page cursors: a sort key and a row id, joined by '|', in UTF-8, in unpadded base64. */
module Cursor {
  import opened Common
  import Utf8
  import Base64
  import Iso = IsoTimestamp

  /** InvalidCursor is the client error; Overflow is the escape of the conversion to UTC. */
  datatype Fault = InvalidCursor | Overflow

  /** What rows are sorted by: a publication, issue or purchase time, or a rating in hundredths. */
  datatype SortKey = Time(ts: Iso.Timestamp) | Rating(hundredths: int)

  datatype Kind = ByTime | ByRating

  function KindOf(k: SortKey): Kind { if k.Time? then ByTime else ByRating }

  /** The number two keys of one kind are compared by. */
  function Value(k: SortKey): int
  {
    match k
    case Time(ts) => Iso.Instant(ts)
    case Rating(h) => h
  }

  /** Keys a column can hold: real calendar times, and ratings of three digits, two of them decimals. */
  predicate KeyOk(k: SortKey)
  {
    match k
    case Time(ts) => Iso.Valid(ts)
    case Rating(h) => -1000 < h < 1000
  }

  // ---------------------------------------------------------------------------------------
  // The envelope
  // ---------------------------------------------------------------------------------------

  function Seal(text: string): string
  {
    Base64.StripPads(Base64.Encode(Utf8.Encode(text)))
  }

  predicate Ascii(s: string)
  {
    forall i :: 0 <= i < |s| ==> s[i] < '\U{80}'
  }

  function Unseal(s: string): Option<string>
  {
    if !Ascii(s) then None
    else
      var bytes := Base64.Decode(Base64.Restored(s));
      if bytes.None? then None else Utf8.Decode(bytes.value)
  }

  lemma {:induction false} EncodedIsAscii(bs: seq<Utf8.Byte>)
    ensures Ascii(Base64.Encode(bs))
    decreases |bs|
  {
    if |bs| >= 3 {
      EncodedIsAscii(bs[3..]);
    }
  }

  lemma {:induction false} StripIsPrefix(s: string)
    ensures Base64.StripPads(s) <= s
  {
    if s != "" && s[|s| - 1] == '=' {
      StripIsPrefix(s[..|s| - 1]);
    }
  }

  lemma SealRoundTrip(text: string)
    ensures Unseal(Seal(text)) == Some(text)
  {
    var bytes := Utf8.Encode(text);
    Utf8.RoundTrip(text);
    Base64.RoundTrip(bytes);
    Base64.PaddingRestored(bytes);
    EncodedIsAscii(bytes);
    StripIsPrefix(Base64.Encode(bytes));
  }

  /** str.rsplit("|", 1): the parts around the last bar; None when there is none. */
  function SplitLast(s: string): Option<(string, string)>
  {
    if s == "" then None
    else if s[|s| - 1] == '|' then Some((s[..|s| - 1], ""))
    else
      match SplitLast(s[..|s| - 1])
      case None => None
      case Some((a, b)) => Some((a, b + [s[|s| - 1]]))
  }

  lemma {:induction false} SplitAtLastBar(a: string, b: string)
    requires '|' !in b
    ensures SplitLast(a + "|" + b) == Some((a, b))
    decreases |b|
  {
    var s := a + "|" + b;
    if b == "" {
      assert s[..|s| - 1] == a;
    } else {
      var front := b[..|b| - 1];
      SplitAtLastBar(a, front);
      assert s[..|s| - 1] == a + "|" + front;
      assert b == front + [b[|b| - 1]];
    }
  }

  lemma {:induction false} SplitHasNoBar(s: string)
    ensures SplitLast(s).Some? ==> '|' !in SplitLast(s).value.1
  {
    if s != "" {
      SplitHasNoBar(s[..|s| - 1]);
    }
  }

  // ---------------------------------------------------------------------------------------
  // Ratings as text
  // ---------------------------------------------------------------------------------------

  /** At least one decimal and no trailing zero beyond it; `f` is in hundredths. */
  function PrintDecimals(f: nat): string
  {
    if f % 10 == 0 then Iso.Field(f / 10, 1) else Iso.Field(f, 2)
  }

  function PrintMagnitude(w: nat, f: nat): string
  {
    Iso.Field(w, 1) + "." + PrintDecimals(f)
  }

  /** The shortest text of a decimal float of at most two decimals. */
  function PrintRating(h: int): string
  {
    if h < 0 then "-" + PrintMagnitude(-h / 100, -h % 100) else PrintMagnitude(h / 100, h % 100)
  }

  function ParseMagnitude(s: string): Option<int>
  {
    if |s| < 3 || |s| > 4 || s[1] != '.' then None
    else
      Hundredths(Iso.Number(s[..1]), Iso.Number(s[2..]), |s| - 2)
  }

  function Hundredths(whole: Option<nat>, decimals: Option<nat>, digits: nat): Option<int>
  {
    if whole.None? || decimals.None? then None
    else Some(whole.value * 100 + if digits == 1 then decimals.value * 10 else decimals.value)
  }

  function Negated(n: Option<int>): Option<int>
  {
    if n.None? then None else Some(-n.value)
  }

  function ParseRating(s: string): Option<int>
  {
    if s != "" && s[0] == '-' then Negated(ParseMagnitude(s[1..])) else ParseMagnitude(s)
  }

  lemma OneDigit(n: nat)
    requires n < 10
    ensures |Iso.Field(n, 1)| == 1 && Iso.Number(Iso.Field(n, 1)) == Some(n) && Iso.Field(n, 1)[0] != '-'
  {
    assert Iso.Pow10(1) == 10;
    Iso.FieldRoundTrip(n, 1);
  }

  lemma MagnitudeOfParts(a: string, b: string)
    requires |a| == 1 && 1 <= |b| <= 2
    ensures ParseMagnitude(a + "." + b) == Hundredths(Iso.Number(a), Iso.Number(b), |b|)
  {
    var s := a + "." + b;
    assert s[..1] == a && s[2..] == b;
  }

  /** One digit, a point, and one digit of tenths or two of hundredths. */
  lemma MagnitudeOfNumbers(a: string, b: string, w: nat, f: nat)
    requires |a| == 1 && 1 <= |b| <= 2 && Iso.Number(a) == Some(w) && Iso.Number(b) == Some(f)
    ensures ParseMagnitude(a + "." + b) == Some(w * 100 + if |b| == 1 then f * 10 else f)
  {
    MagnitudeOfParts(a, b);
  }

  lemma MagnitudeOfTenths(w: nat, d: nat)
    requires w < 10 && d < 10
    ensures ParseMagnitude(Iso.Field(w, 1) + "." + Iso.Field(d, 1)) == Some(w * 100 + d * 10)
  {
    OneDigit(w);
    OneDigit(d);
    MagnitudeOfNumbers(Iso.Field(w, 1), Iso.Field(d, 1), w, d);
  }

  lemma MagnitudeOfHundredths(w: nat, f: nat)
    requires w < 10 && f < 100
    ensures ParseMagnitude(Iso.Field(w, 1) + "." + Iso.Field(f, 2)) == Some(w * 100 + f)
  {
    OneDigit(w);
    Iso.TwoDigits(f);
    MagnitudeOfNumbers(Iso.Field(w, 1), Iso.Field(f, 2), w, f);
  }

  lemma MagnitudeRoundTrip(w: nat, f: nat)
    requires w < 10 && f < 100
    ensures ParseMagnitude(PrintMagnitude(w, f)) == Some(w * 100 + f)
    ensures PrintMagnitude(w, f) != "" && PrintMagnitude(w, f)[0] != '-'
  {
    OneDigit(w);
    if f % 10 == 0 {
      MagnitudeOfTenths(w, f / 10);
    } else {
      MagnitudeOfHundredths(w, f);
    }
  }

  lemma RatingRoundTrip(h: int)
    requires -1000 < h < 1000
    ensures ParseRating(PrintRating(h)) == Some(h)
  {
    var n := if h < 0 then -h else h;
    MagnitudeRoundTrip(n / 100, n % 100);
    SignOfText(PrintMagnitude(n / 100, n % 100));
  }

  lemma SignOfText(text: string)
    requires text != "" && text[0] != '-'
    ensures ParseRating(text) == ParseMagnitude(text) && ParseRating("-" + text) == Negated(ParseMagnitude(text))
  {
    assert ("-" + text)[1..] == text;
  }

  // ---------------------------------------------------------------------------------------
  // Cursors
  // ---------------------------------------------------------------------------------------

  function KeyText(k: SortKey): string
    requires KeyOk(k)
  {
    match k
    case Time(ts) => Iso.Print(ts)
    case Rating(h) => PrintRating(h)
  }

  function EncodeCursor(k: SortKey, id: string): string
    requires KeyOk(k)
  {
    Seal(KeyText(k) + "|" + id)
  }

  function ParseKey(kind: Kind, text: string): Option<int>
  {
    match kind
    case ByTime => (match Iso.Parse(text) case Some(ts) => Some(Iso.Instant(ts)) case None => None)
    case ByRating => ParseRating(text)
  }

  /** The checks on a key and an id already cut apart. */
  function Checked(kind: Kind, key: Option<int>, id: string): Result<(int, string), Fault>
  {
    if key.None? || id == "" || |id| > 120 then Err(InvalidCursor)
    else if kind == ByTime && !Iso.InUtcRange(key.value) then Err(Overflow)
    else Ok((key.value, id))
  }

  function DecodeCursor(kind: Kind, cursor: string): Result<(int, string), Fault>
  {
    match Unseal(cursor)
    case None => Err(InvalidCursor)
    case Some(raw) => DecodeText(kind, raw)
  }

  function DecodeText(kind: Kind, raw: string): Result<(int, string), Fault>
  {
    match SplitLast(raw)
    case None => Err(InvalidCursor)
    case Some((text, id)) => Checked(kind, ParseKey(kind, text), id)
  }

  /** What a caller can check before encoding. */
  predicate Encodable(k: SortKey, id: string)
  {
    0 < |id| <= 120 && '|' !in id && (k.Time? ==> Iso.InUtcRange(Value(k)))
  }

  lemma KeyRoundTrip(k: SortKey)
    requires KeyOk(k)
    ensures ParseKey(KindOf(k), KeyText(k)) == Some(Value(k))
  {
    match k
    case Time(ts) => Iso.RoundTrip(ts);
    case Rating(h) => RatingRoundTrip(h);
  }

  lemma TextRoundTrip(k: SortKey, text: string, id: string)
    requires ParseKey(KindOf(k), text) == Some(Value(k))
    ensures DecodeText(KindOf(k), text + "|" + id) == Ok((Value(k), id)) <==> Encodable(k, id)
  {
    if '|' in id {
      SplitHasNoBar(text + "|" + id);
    } else {
      SplitAtLastBar(text, id);
    }
  }

  /** A cursor decodes to the same instant or rating and the same id exactly when the id is not
      empty, has at most 120 characters and no bar, and the instant has a UTC calendar year. */
  lemma CursorRoundTrip(k: SortKey, id: string)
    requires KeyOk(k)
    ensures DecodeCursor(KindOf(k), EncodeCursor(k, id)) == Ok((Value(k), id)) <==> Encodable(k, id)
  {
    SealRoundTrip(KeyText(k) + "|" + id);
    KeyRoundTrip(k);
    TextRoundTrip(k, KeyText(k), id);
  }

  // ---------------------------------------------------------------------------------------
  // Cursors travel in query strings
  // ---------------------------------------------------------------------------------------

  predicate UrlSafe(c: char)
  {
    'A' <= c <= 'Z' || 'a' <= c <= 'z' || '0' <= c <= '9' || c == '-' || c == '_'
  }

  /** Unreserved characters, then padding. */
  predicate PadsLast(s: string)
  {
    && (forall i :: 0 <= i < |s| ==> UrlSafe(s[i]) || s[i] == '=')
    && (forall i, j :: 0 <= i < j < |s| && s[i] == '=' ==> s[j] == '=')
  }

  lemma DigitIsUrlSafe(v: Base64.Sextet)
    ensures UrlSafe(Base64.Digit(v))
  {
  }

  lemma {:induction false} EncodedPadsLast(bs: seq<Utf8.Byte>)
    ensures PadsLast(Base64.Encode(bs))
    decreases |bs|
  {
    if |bs| >= 3 {
      EncodedPadsLast(bs[3..]);
    }
  }

  lemma {:induction false} StrippedIsUrlSafe(s: string)
    requires PadsLast(s)
    ensures forall i :: 0 <= i < |Base64.StripPads(s)| ==> UrlSafe(Base64.StripPads(s)[i])
  {
    if s != "" && s[|s| - 1] == '=' {
      StrippedIsUrlSafe(s[..|s| - 1]);
    }
  }

  /** A cursor needs no escaping in a query string. */
  lemma CursorsAreUrlSafe(k: SortKey, id: string)
    requires KeyOk(k)
    ensures forall i :: 0 <= i < |EncodeCursor(k, id)| ==> UrlSafe(EncodeCursor(k, id)[i])
  {
    var bytes := Utf8.Encode(KeyText(k) + "|" + id);
    EncodedPadsLast(bytes);
    StrippedIsUrlSafe(Base64.Encode(bytes));
  }
}
