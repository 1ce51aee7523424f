/**
  The date-format chain of the frontmatter callback: the first ten characters of the
  upload timestamp, whose date part is an extended calendar date `YYYY-MM-DD`
  (section 4.1.2.2 of ISO 8601:2004), read back in the order a selector names.
 */
module DateFormat {
  import opened Text

  /** `uploadDate.substring(0, 10)`: at most the first ten characters. */
  function Prefix10(s: string): (r: string)
    ensures |r| == if |s| < 10 then |s| else 10
    ensures r == s[..|r|]
  {
    if |s| < 10 then s else s[..10]
  }

  /** `dateParts[i]` in a template literal: a missing part prints as `undefined`. */
  function PartOr(parts: seq<string>, i: nat): string {
    if i < |parts| then parts[i] else "undefined"
  }

  /** `${dateParts[a]}X${dateParts[b]}X${dateParts[c]}` over the hyphen-split prefix. */
  function Reorder(date: string, a: nat, b: nat, c: nat, sep: char): string {
    var parts := Split(Prefix10(date), '-');
    PartOr(parts, a) + [sep] + PartOr(parts, b) + [sep] + PartOr(parts, c)
  }

  /** `.replace(/-/g, '/')` */
  function SlashHyphens(s: string): (r: string)
    ensures |r| == |s|
    ensures forall i :: 0 <= i < |s| ==> r[i] == if s[i] == '-' then '/' else s[i]
  {
    seq(|s|, i requires 0 <= i < |s| => if s[i] == '-' then '/' else s[i])
  }

  /** The formatted date written to the date property. */
  function FormatDate(uploadDate: string, dateFormat: string): string {
    if dateFormat == "YYYY-MM-DD" then Prefix10(uploadDate)
    else if dateFormat == "MM-DD-YYYY" then Reorder(uploadDate, 1, 2, 0, '-')
    else if dateFormat == "DD-MM-YYYY" then Reorder(uploadDate, 2, 1, 0, '-')
    else if dateFormat == "YYYY/MM/DD" then SlashHyphens(Prefix10(uploadDate))
    else if dateFormat == "MM/DD/YYYY" then Reorder(uploadDate, 1, 2, 0, '/')
    else if dateFormat == "DD/MM/YYYY" then Reorder(uploadDate, 2, 1, 0, '/')
    else uploadDate
  }

  /** The selectors the chain recognises. */
  predicate IsSelector(dateFormat: string) {
    dateFormat in {"YYYY-MM-DD", "MM-DD-YYYY", "DD-MM-YYYY", "YYYY/MM/DD", "MM/DD/YYYY", "DD/MM/YYYY"}
  }

  /** The timestamp starts with `YYYY-MM-DD`: four, two and two digits joined by hyphens. */
  predicate StartsWithDate(s: string) {
    && |s| >= 10
    && AllDigits(s[0..4]) && s[4] == '-' && AllDigits(s[5..7]) && s[7] == '-' && AllDigits(s[8..10])
  }

  function Year(s: string): string requires |s| >= 10 { s[0..4] }
  function Month(s: string): string requires |s| >= 10 { s[5..7] }
  function Day(s: string): string requires |s| >= 10 { s[8..10] }

  /** A digit string holds no hyphen. */
  lemma DigitsHaveNoHyphen(w: string)
    requires AllDigits(w)
    ensures '-' !in w
  {
  }

  /** The prefix of such a timestamp splits into year, month and day. */
  lemma SplitOfDate(s: string)
    requires StartsWithDate(s)
    ensures Split(Prefix10(s), '-') == [Year(s), Month(s), Day(s)]
  {
    var y, m, d := Year(s), Month(s), Day(s);
    assert Prefix10(s) == y + ['-'] + (m + ['-'] + d);
    DigitsHaveNoHyphen(y);
    DigitsHaveNoHyphen(m);
    DigitsHaveNoHyphen(d);
    SplitWithoutSeparator(d, '-');
    SplitAtSeparator(m, '-', d);
    SplitAtSeparator(y, '-', m + ['-'] + d);
  }

  /** The six selectors on a timestamp that starts with `Y-M-D`. */
  lemma FormatOfDate(s: string)
    requires StartsWithDate(s)
    ensures FormatDate(s, "YYYY-MM-DD") == Year(s) + "-" + Month(s) + "-" + Day(s)
    ensures FormatDate(s, "MM-DD-YYYY") == Month(s) + "-" + Day(s) + "-" + Year(s)
    ensures FormatDate(s, "DD-MM-YYYY") == Day(s) + "-" + Month(s) + "-" + Year(s)
    ensures FormatDate(s, "YYYY/MM/DD") == Year(s) + "/" + Month(s) + "/" + Day(s)
    ensures FormatDate(s, "MM/DD/YYYY") == Month(s) + "/" + Day(s) + "/" + Year(s)
    ensures FormatDate(s, "DD/MM/YYYY") == Day(s) + "/" + Month(s) + "/" + Year(s)
  {
    var y, m, d := Year(s), Month(s), Day(s);
    var p := Prefix10(s);
    assert p == y + "-" + m + "-" + d;
    SplitOfDate(s);
    DigitsHaveNoHyphen(y);
    DigitsHaveNoHyphen(m);
    DigitsHaveNoHyphen(d);
    assert SlashHyphens(p) == y + "/" + m + "/" + d;
  }

  /** Any other selector, `auto` included, leaves the whole timestamp as it is. */
  lemma FormatOtherSelector(s: string, dateFormat: string)
    requires !IsSelector(dateFormat)
    ensures FormatDate(s, dateFormat) == s
  {
  }

  /** A timestamp without hyphens in its first ten characters has a single part, so the
      reordering selectors print the two missing fields as `undefined`. */
  lemma FormatWithoutHyphens(s: string)
    requires '-' !in Prefix10(s)
    ensures FormatDate(s, "MM-DD-YYYY") == "undefined-undefined-" + Prefix10(s)
    ensures FormatDate(s, "DD/MM/YYYY") == "undefined/undefined/" + Prefix10(s)
    ensures FormatDate(s, "YYYY/MM/DD") == Prefix10(s)
  {
    var p := Prefix10(s);
    assert "undefined" + ['-'] + "undefined" + ['-'] == "undefined-undefined-";
    assert "undefined" + ['/'] + "undefined" + ['/'] == "undefined/undefined/";
    SplitWithoutSeparator(p, '-');
    var parts := Split(p, '-');
    assert PartOr(parts, 0) == p && PartOr(parts, 1) == "undefined" && PartOr(parts, 2) == "undefined";
    assert SlashHyphens(p) == p;
  }
}
