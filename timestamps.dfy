/**
 * `parse_timestamp`: the two fixed `strptime` formats tried in order, then
 * the ISO-8601 fallback. Each format is a sequence of fields read the way
 * CPython's `_strptime` reads them: a directive takes the longest run its
 * pattern allows, literal characters must match, a space in the format
 * matches one or more whitespace characters (Unicode whitespace included),
 * and the whole string must be consumed. Digits are the ASCII digits only;
 * `\d` in CPython also takes the other Unicode decimal digits.
 */
module Timestamps {
  import opened Wrappers
  import opened Text
  import opened Clock

  /** `"%d/%m/%Y %H:%M"` and `"%Y-%m-%d %H:%M"`. */
  datatype Format = DayMonthYear | YearMonthDay

  /** `TIME_FORMATS`, in the order they are tried. */
  const TIME_FORMATS: seq<Format> := [DayMonthYear, YearMonthDay]

  /** The pieces of a format string: `%d`, `%m`, `%Y`, `%H`, `%M`, a literal character, a space. */
  datatype Directive = DayOfMonth | MonthNumber | Year4 | Hour24 | MinuteNumber | Char(c: char) | Whitespace
  {
    predicate IsField() { !Char? && !Whitespace? }
  }

  function Directives(f: Format): seq<Directive>
  {
    match f
    case DayMonthYear =>
      [DayOfMonth, Char('/'), MonthNumber, Char('/'), Year4, Whitespace, Hour24, Char(':'), MinuteNumber]
    case YearMonthDay =>
      [Year4, Char('-'), MonthNumber, Char('-'), DayOfMonth, Whitespace, Hour24, Char(':'), MinuteNumber]
  }

  /** A field value and the text that follows it. */
  datatype Scan = Scan(value: int, rest: string)

  /** Length of the run of digits at the start of `s`. */
  function DigitRun(s: string): (n: nat)
    ensures n <= |s|
    ensures forall i :: 0 <= i < n ==> IsDigit(s[i])
    ensures n == |s| || !IsDigit(s[n])
  {
    if s == [] || !IsDigit(s[0]) then 0 else 1 + DigitRun(s[1..])
  }

  /**
   * What `\s` matches in a `str` pattern, the characters for which
   * `str.isspace()` holds: the ASCII controls tab to carriage return, the
   * separators U+001C to U+001F, the space, NEL, the no-break space, and the
   * Unicode space separators, line and paragraph separators.
   */
  predicate IsSpace(c: char)
  {
    || '\U{09}' <= c <= '\U{0D}'
    || '\U{1C}' <= c <= '\U{20}'
    || c == '\U{85}' || c == '\U{A0}' || c == '\U{1680}'
    || '\U{2000}' <= c <= '\U{200A}'
    || c == '\U{2028}' || c == '\U{2029}' || c == '\U{202F}' || c == '\U{205F}' || c == '\U{3000}'
  }

  /** Length of the run of whitespace at the start of `s`. */
  function SpaceRun(s: string): (n: nat)
    ensures n <= |s|
  {
    if s == [] || !IsSpace(s[0]) then 0 else 1 + SpaceRun(s[1..])
  }

  /** `%m`, `%H`, `%M` and the digit forms of `%d`: one or two digits, value in `lo..hi`. */
  function ShortField(s: string, lo: int, hi: int): Option<Scan>
  {
    var n := DigitRun(s);
    if 1 <= n <= 2 && lo <= DigitsValue(s[..n]) <= hi then Some(Scan(DigitsValue(s[..n]), s[n..]))
    else None
  }

  /** `%d`: `01`..`31`, `1`..`9`, or a space followed by `1`..`9`. */
  function DayField(s: string): Option<Scan>
  {
    if |s| >= 1 && s[0] == ' ' then
      if |s| >= 2 && '1' <= s[1] <= '9' then Some(Scan(DigitValue(s[1]), s[2..])) else None
    else
      ShortField(s, 1, 31)
  }

  /** `%Y`: exactly four digits. */
  function YearField(s: string): Option<Scan>
  {
    if DigitRun(s) == 4 then Some(Scan(DigitsValue(s[..4]), s[4..])) else None
  }

  function ReadField(s: string, d: Directive): Option<Scan>
    requires d.IsField()
  {
    match d
    case DayOfMonth => DayField(s)
    case MonthNumber => ShortField(s, 1, 12)
    case Year4 => YearField(s)
    case Hour24 => ShortField(s, 0, 23)
    case MinuteNumber => ShortField(s, 0, 59)
  }

  /** Record the value of field `d` in the datetime being built. */
  function SetField(acc: Civil, d: Directive, v: int): Civil
    requires d.IsField()
  {
    match d
    case DayOfMonth => acc.(day := v)
    case MonthNumber => acc.(month := v)
    case Year4 => acc.(year := v)
    case Hour24 => acc.(hour := v)
    case MinuteNumber => acc.(minute := v)
  }

  /** Match all of `s` against the directives, filling in the fields of `acc`. */
  function Match(s: string, ds: seq<Directive>, acc: Civil): Option<Civil>
    decreases |ds|
  {
    if ds == [] then
      if s == [] then Some(acc) else None
    else if ds[0].Char? then
      if |s| > 0 && s[0] == ds[0].c then Match(s[1..], ds[1..], acc) else None
    else if ds[0].Whitespace? then
      var n := SpaceRun(s);
      if n >= 1 then Match(s[n..], ds[1..], acc) else None
    else
      match ReadField(s, ds[0])
      case None => None
      case Some(field) => Match(field.rest, ds[1..], SetField(acc, ds[0], field.value))
  }

  /** `datetime.strptime(value, fmt)`, `None` where it raises `ValueError`; unset fields default to 1900-01-01 00:00. */
  function Strptime(value: string, f: Format): Option<Instant>
  {
    match Match(value, Directives(f), Civil(1900, 1, 1, 0, 0))
    case None => None
    case Some(c) => if c.Valid() then Some(ToInstant(c)) else None
  }

  /** The first of `formats` that parses `value`, else the ISO-8601 reading `iso(value)`. */
  function FirstParse(value: string, formats: seq<Format>, iso: string -> Option<Instant>): Option<Instant>
  {
    if formats == [] then iso(value)
    else if Strptime(value, formats[0]).Some? then Strptime(value, formats[0])
    else FirstParse(value, formats[1..], iso)
  }

  /**
   * What `parse_timestamp(value)` returns; `iso` stands for
   * `datetime.fromisoformat`, which is not part of this model.
   */
  function ParsedTimestamp(value: string, iso: string -> Option<Instant>): Option<Instant>
  {
    FirstParse(value, TIME_FORMATS, iso)
  }

  /** Formats that all fail can be skipped. */
  lemma {:induction false} FirstParseSkip(value: string, formats: seq<Format>, k: nat, iso: string -> Option<Instant>)
    requires k <= |formats|
    requires forall j :: 0 <= j < k ==> Strptime(value, formats[j]).None?
    ensures FirstParse(value, formats, iso) == FirstParse(value, formats[k..], iso)
  {
    if k > 0 {
      FirstParseSkip(value, formats[1..], k - 1, iso);
      assert formats[1..][k - 1..] == formats[k..];
    }
  }

  /** `parse_timestamp`: try each fixed format in turn, return on the first success, then fall back to ISO. */
  method ParseTimestamp(value: string, iso: string -> Option<Instant>) returns (r: Option<Instant>)
    ensures r == ParsedTimestamp(value, iso)
  {
    for k := 0 to |TIME_FORMATS|
      invariant forall j :: 0 <= j < k ==> Strptime(value, TIME_FORMATS[j]).None?
    {
      var parsed := Strptime(value, TIME_FORMATS[k]);
      if parsed.Some? {
        FirstParseSkip(value, TIME_FORMATS, k, iso);
        return parsed;
      }
    }
    FirstParseSkip(value, TIME_FORMATS, |TIME_FORMATS|, iso);
    return iso(value);
  }

  /** The canonical zero-padded rendering of one directive. */
  function RenderDirective(c: Civil, d: Directive): string
    requires c.Valid()
  {
    match d
    case DayOfMonth => ZeroPadded(c.day, 2)
    case MonthNumber => ZeroPadded(c.month, 2)
    case Year4 => ZeroPadded(c.year, 4)
    case Hour24 => ZeroPadded(c.hour, 2)
    case MinuteNumber => ZeroPadded(c.minute, 2)
    case Char(ch) => [ch]
    case Whitespace => " "
  }

  function RenderAll(c: Civil, ds: seq<Directive>): string
    requires c.Valid()
  {
    if ds == [] then "" else RenderDirective(c, ds[0]) + RenderAll(c, ds[1..])
  }

  /** A datetime written out in format `f`, every field zero-padded. */
  function Render(c: Civil, f: Format): string
    requires c.Valid()
  {
    RenderAll(c, Directives(f))
  }

  /** The datetime `acc` with every field named in `ds` taken from `c`. */
  function SetFields(acc: Civil, ds: seq<Directive>, c: Civil): Civil
    decreases |ds|
  {
    if ds == [] then acc
    else if ds[0].IsField() then SetFields(SetField(acc, ds[0], FieldOf(c, ds[0])), ds[1..], c)
    else SetFields(acc, ds[1..], c)
  }

  function FieldOf(c: Civil, d: Directive): int
    requires d.IsField()
  {
    match d
    case DayOfMonth => c.day
    case MonthNumber => c.month
    case Year4 => c.year
    case Hour24 => c.hour
    case MinuteNumber => c.minute
  }

  /**
   * Directives whose renderings cannot run into each other: a field is
   * followed by a non-digit literal or a space, a space by a field, and no
   * literal is a digit or whitespace.
   */
  predicate Separated(ds: seq<Directive>)
  {
    forall k :: 0 <= k < |ds| ==> SeparatedAt(ds, k)
  }

  predicate SeparatedAt(ds: seq<Directive>, k: int)
    requires 0 <= k < |ds|
  {
    && (ds[k].Char? ==> !IsDigit(ds[k].c) && !IsSpace(ds[k].c))
    && (ds[k].IsField() && k + 1 < |ds| ==> !ds[k + 1].IsField())
    && (ds[k].Whitespace? ==> k + 1 < |ds| && ds[k + 1].IsField())
  }

  lemma {:induction false} DigitRunOf(ds: string, rest: string)
    requires AllDigits(ds)
    requires rest == [] || !IsDigit(rest[0])
    ensures DigitRun(ds + rest) == |ds|
  {
    if ds != [] {
      assert (ds + rest)[1..] == ds[1..] + rest;
      DigitRunOf(ds[1..], rest);
    }
  }

  lemma ZeroPaddedOf(v: nat, w: nat, rest: string)
    requires w >= 1 && v < Pow10(w)
    requires rest == [] || !IsDigit(rest[0])
    ensures DigitRun(ZeroPadded(v, w) + rest) == w
    ensures (ZeroPadded(v, w) + rest)[..w] == ZeroPadded(v, w)
    ensures (ZeroPadded(v, w) + rest)[w..] == rest
    ensures DigitsValue(ZeroPadded(v, w)) == v
  {
    DigitRunOf(ZeroPadded(v, w), rest);
    ZeroPaddedRoundTrip(v, w);
  }

  /** A zero-padded field reads back as its value, and the text after it is left. */
  lemma ReadFieldOf(c: Civil, d: Directive, rest: string)
    requires c.Valid() && d.IsField()
    requires rest == [] || !IsDigit(rest[0])
    ensures ReadField(RenderDirective(c, d) + rest, d) == Some(Scan(FieldOf(c, d), rest))
  {
    match d
    case Year4 => ZeroPaddedOf(c.year, 4, rest);
    case DayOfMonth =>
      ZeroPaddedOf(c.day, 2, rest);
      assert IsDigit((ZeroPadded(c.day, 2) + rest)[0]);
    case MonthNumber => ZeroPaddedOf(c.month, 2, rest);
    case Hour24 => ZeroPaddedOf(c.hour, 2, rest);
    case MinuteNumber => ZeroPaddedOf(c.minute, 2, rest);
  }

  lemma {:induction false} RenderAllStart(c: Civil, ds: seq<Directive>)
    requires c.Valid() && ds != []
    ensures |RenderAll(c, ds)| >= 1
    ensures ds[0].IsField() ==> IsDigit(RenderAll(c, ds)[0])
    ensures ds[0].Char? ==> RenderAll(c, ds)[0] == ds[0].c
    ensures ds[0].Whitespace? ==> RenderAll(c, ds)[0] == ' '
  {
  }

  /** Matching the rendering of separated directives recovers every field they name. */
  lemma {:induction false} MatchRenderAll(c: Civil, ds: seq<Directive>, acc: Civil)
    requires c.Valid() && Separated(ds)
    ensures Match(RenderAll(c, ds), ds, acc) == Some(SetFields(acc, ds, c))
    decreases |ds|
  {
    if ds != [] {
      assert SeparatedAt(ds, 0);
      var rest := RenderAll(c, ds[1..]);
      assert Separated(ds[1..]) by {
        forall k | 0 <= k < |ds| - 1 ensures SeparatedAt(ds[1..], k) {
          assert SeparatedAt(ds, k + 1);
        }
      }
      MatchRenderAll(c, ds[1..], if ds[0].IsField() then SetField(acc, ds[0], FieldOf(c, ds[0])) else acc);
      if |ds| > 1 {
        RenderAllStart(c, ds[1..]);
        assert ds[1..][0] == ds[1];
        assert SeparatedAt(ds, 1);
      } else {
        assert ds[1..] == [];
      }
      var s := RenderAll(c, ds);
      assert s == RenderDirective(c, ds[0]) + rest;
      if ds[0].Char? {
        assert s[1..] == rest;
      } else if ds[0].Whitespace? {
        assert s[1..] == rest;
        assert SpaceRun(s[1..]) == 0;
        assert SpaceRun(s) == 1;
      } else {
        ReadFieldOf(c, ds[0], rest);
      }
    }
  }

  lemma {:induction false} SetFieldsField(acc: Civil, ds: seq<Directive>, c: Civil, d: Directive)
    requires d.IsField()
    ensures FieldOf(SetFields(acc, ds, c), d) == if d in ds then FieldOf(c, d) else FieldOf(acc, d)
    decreases |ds|
  {
    if ds != [] {
      var acc' := if ds[0].IsField() then SetField(acc, ds[0], FieldOf(c, ds[0])) else acc;
      SetFieldsField(acc', ds[1..], c, d);
      assert d in ds <==> d == ds[0] || d in ds[1..];
    }
  }

  /** Both fixed formats name all five fields, so what they read is the whole datetime. */
  lemma SetFieldsComplete(c: Civil, f: Format, acc: Civil)
    ensures SetFields(acc, Directives(f), c) == c
  {
    var ds := Directives(f);
    var r := SetFields(acc, ds, c);
    assert DayOfMonth in ds && MonthNumber in ds && Year4 in ds && Hour24 in ds && MinuteNumber in ds by {
      if f == DayMonthYear {
        assert ds[0] == DayOfMonth && ds[2] == MonthNumber && ds[4] == Year4 && ds[6] == Hour24 && ds[8] == MinuteNumber;
      } else {
        assert ds[4] == DayOfMonth && ds[2] == MonthNumber && ds[0] == Year4 && ds[6] == Hour24 && ds[8] == MinuteNumber;
      }
    }
    SetFieldsField(acc, ds, c, DayOfMonth);
    SetFieldsField(acc, ds, c, MonthNumber);
    SetFieldsField(acc, ds, c, Year4);
    SetFieldsField(acc, ds, c, Hour24);
    SetFieldsField(acc, ds, c, MinuteNumber);
  }

  lemma {:induction false} SpaceRunOf(w: string, rest: string)
    requires forall i :: 0 <= i < |w| ==> IsSpace(w[i])
    requires rest == [] || !IsSpace(rest[0])
    ensures SpaceRun(w + rest) == |w|
  {
    if w != [] {
      assert (w + rest)[1..] == w[1..] + rest;
      SpaceRunOf(w[1..], rest);
    }
  }

  /**
   * The space of a format takes any non-empty run of whitespace, a no-break
   * space or an ideographic space as much as an ASCII one, and matching
   * goes on with the text after the run.
   */
  lemma SeparatorRun(w: string, rest: string, ds: seq<Directive>, acc: Civil)
    requires |w| >= 1 && forall i :: 0 <= i < |w| ==> IsSpace(w[i])
    requires rest == [] || !IsSpace(rest[0])
    ensures Match(w + rest, [Whitespace] + ds, acc) == Match(rest, ds, acc)
  {
    SpaceRunOf(w, rest);
    assert ([Whitespace] + ds)[1..] == ds;
    assert (w + rest)[|w|..] == rest;
  }

  /** Each fixed format reads back the datetime it rendered. */
  lemma StrptimeRoundTrip(c: Civil, f: Format)
    requires c.Valid()
    ensures Strptime(Render(c, f), f) == Some(ToInstant(c))
  {
    assert Separated(Directives(f));
    MatchRenderAll(c, Directives(f), Civil(1900, 1, 1, 0, 0));
    SetFieldsComplete(c, f, Civil(1900, 1, 1, 0, 0));
  }

  /**
   * A datetime rendered in either fixed format is parsed by that format,
   * whatever the ISO fallback would have made of the text.
   */
  lemma ParseRendered(c: Civil, f: Format, iso: string -> Option<Instant>)
    requires c.Valid()
    ensures ParsedTimestamp(Render(c, f), iso) == Some(ToInstant(c))
  {
    var s := Render(c, f);
    StrptimeRoundTrip(c, f);
    if f == YearMonthDay {
      // The leading year is a four-digit run, too long for a day field.
      var ds := Directives(f);
      assert s == ZeroPadded(c.year, 4) + RenderAll(c, ds[1..]);
      RenderAllStart(c, ds[1..]);
      DigitRunOf(ZeroPadded(c.year, 4), RenderAll(c, ds[1..]));
      assert DayField(s).None?;
      assert Match(s, Directives(DayMonthYear), Civil(1900, 1, 1, 0, 0)).None?;
      assert Strptime(s, DayMonthYear).None?;
      assert TIME_FORMATS[1..] == [YearMonthDay];
      assert FirstParse(s, [YearMonthDay], iso) == Strptime(s, YearMonthDay);
    }
  }
}
