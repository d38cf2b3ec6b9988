/**
 * The opening-hours widget: which of Google's weekday lines is today's, the
 * hours part of that line, the word-for-word Spanish translation of the week's
 * lines, the open/closed badge, and the expand toggle.
 */
module OpeningHours {
  import opened Js

  /** `{ open_now?, weekday_text? }` as the Places API returns it. */
  datatype OpeningHoursData = OpeningHoursData(openNow: Option<bool>, weekdayText: Option<seq<string>>)

  // ----- today ----------------------------------------------------------------------

  /**
   * `todayIndex`: JavaScript numbers days from Sunday (0), Google's lines from
   * Monday, so Sunday is line 6 and every other day `d` is line `d - 1`.
   */
  function TodayIndex(jsDay: int): (r: int)
    requires 0 <= jsDay <= 6
    ensures 0 <= r <= 6
    ensures r == (jsDay + 6) % 7
    ensures jsDay == 0 ==> r == 6
    ensures jsDay > 0 ==> r == jsDay - 1
  {
    if jsDay == 0 then 6 else jsDay - 1
  }

  /** `indexOf(c)`: the first position of `c`, or -1. */
  function IndexOf(s: string, c: char): (r: int)
    ensures -1 <= r < |s|
    ensures r == -1 <==> c !in s
    ensures r >= 0 ==> s[r] == c && forall h :: 0 <= h < r ==> s[h] != c
  {
    if s == [] then -1
    else if s[0] == c then 0
    else
      var rest := IndexOf(s[1..], c);
      if rest == -1 then -1 else rest + 1
  }

  /** `weekday_text[todayIndex] || ''`: a missing or empty line reads as empty. */
  function LineAt(lines: seq<string>, index: int): (r: string)
    ensures 0 <= index < |lines| ==> r == lines[index]
    ensures !(0 <= index < |lines|) ==> r == ""
  {
    if 0 <= index < |lines| then lines[index] else ""
  }

  /** `s.substring(s.indexOf(c) + 1)`: the text after the first `c`, or all of `s` when it has none. */
  function AfterFirst(s: string, c: char): (r: string)
    ensures c !in s ==> r == s
  {
    var k := IndexOf(s, c);
    assert k == -1 ==> s[k + 1..] == s;
    s[k + 1..]
  }

  /** With the first `c` at `k`, the text after it starts at `k + 1`. */
  lemma AfterFirstAt(s: string, c: char, k: int)
    requires 0 <= k < |s| && s[k] == c
    requires forall h :: 0 <= h < k ==> s[h] != c
    ensures AfterFirst(s, c) == s[k + 1..]
  {
    var i := IndexOf(s, c);
    assert s[k] == c;
    assert i == k by {
      assert !(i < k);
      assert !(k < i);
    }
  }

  /**
   * `todaysHours`: the trimmed text after the first `:`, or the whole trimmed
   * line when it has none.
   */
  function HoursPart(line: string): (r: string)
    ensures ':' !in line ==> r == Trim(line)
  {
    Trim(AfterFirst(line, ':'))
  }

  /** With its first `:` at `k`, a line's hours are the trimmed text after position `k`. */
  lemma HoursAfterFirstColon(line: string, k: int)
    requires 0 <= k < |line| && line[k] == ':'
    requires forall h :: 0 <= h < k ==> line[h] != ':'
    ensures HoursPart(line) == Trim(line[k + 1..])
  {
    AfterFirstAt(line, ':', k);
  }

  // ----- translation ----------------------------------------------------------------

  /** The words the widget translates, in the order it applies them. */
  const Translations: seq<(string, string)> := [
    ("Monday", "Lunes"),
    ("Tuesday", "Martes"),
    ("Wednesday", "Miércoles"),
    ("Thursday", "Jueves"),
    ("Friday", "Viernes"),
    ("Saturday", "Sábado"),
    ("Sunday", "Domingo"),
    ("Closed", "Cerrado")
  ]

  /** `pat` occurs in `s` at position `i`. */
  predicate OccursAt(s: string, pat: string, i: int) {
    0 <= i && i + |pat| <= |s| && s[i..i + |pat|] == pat
  }

  /**
   * `s.replace(new RegExp(pat, 'g'), rep)` for a pattern of plain letters:
   * each occurrence, scanning left to right without overlaps, becomes `rep`.
   */
  function ReplaceAll(s: string, pat: string, rep: string): string
    requires pat != []
    decreases |s|
  {
    if |s| < |pat| then s
    else if s[..|pat|] == pat then rep + ReplaceAll(s[|pat|..], pat, rep)
    else [s[0]] + ReplaceAll(s[1..], pat, rep)
  }

  /** A text in which the pattern does not occur is left as it is. */
  lemma {:induction false} ReplaceAllAbsent(s: string, pat: string, rep: string)
    requires pat != []
    requires forall i :: !OccursAt(s, pat, i)
    ensures ReplaceAll(s, pat, rep) == s
    decreases |s|
  {
    if |s| >= |pat| {
      assert !OccursAt(s, pat, 0);
      forall i
        ensures !OccursAt(s[1..], pat, i)
      {
        if OccursAt(s[1..], pat, i) {
          assert s[1..][i..i + |pat|] == s[i + 1..i + 1 + |pat|];
          assert OccursAt(s, pat, i + 1);
        }
      }
      ReplaceAllAbsent(s[1..], pat, rep);
    }
  }

  /** A text that starts with the pattern starts with the replacement. */
  lemma ReplaceAllPrefix(pat: string, rest: string, rep: string)
    requires pat != []
    ensures ReplaceAll(pat + rest, pat, rep) == rep + ReplaceAll(rest, pat, rep)
  {
    assert (pat + rest)[..|pat|] == pat;
    assert (pat + rest)[|pat|..] == rest;
  }

  /** A text that starts with the pattern starts with the replacement. */
  lemma ReplaceAllTake(s: string, pat: string, rep: string)
    requires pat != [] && OccursAt(s, pat, 0)
    ensures ReplaceAll(s, pat, rep) == rep + ReplaceAll(s[|pat|..], pat, rep)
  {
  }

  /** A text that does not start with the pattern keeps its first character. */
  lemma ReplaceAllSkip(s: string, pat: string, rep: string)
    requires pat != [] && |s| > 0 && !OccursAt(s, pat, 0)
    ensures ReplaceAll(s, pat, rep) == [s[0]] + ReplaceAll(s[1..], pat, rep)
  {
  }

  /**
   * The first occurrence, wherever it is, becomes the replacement: the text
   * before it is kept and the scan goes on after it.
   */
  lemma ReplaceAllAt(s: string, pat: string, rep: string, k: int)
    requires pat != []
    requires OccursAt(s, pat, k)
    requires forall i :: 0 <= i < k ==> !OccursAt(s, pat, i)
    ensures ReplaceAll(s, pat, rep) == s[..k] + rep + ReplaceAll(s[k + |pat|..], pat, rep)
  {
    NoneBeforeHolds(s, pat, k);
    assert s == s[..k] + pat + s[k + |pat|..];
    ReplaceAllSplit(s[..k], pat, s[k + |pat|..], rep);
  }

  /** No occurrence of `pat` starts before position `k` of `s`, stated position by position. */
  ghost predicate NoneBefore(s: string, pat: string, k: nat)
    decreases k
  {
    k == 0 || (|s| > 0 && !OccursAt(s, pat, 0) && NoneBefore(s[1..], pat, k - 1))
  }

  lemma {:induction false} NoneBeforeHolds(s: string, pat: string, k: int)
    requires OccursAt(s, pat, k)
    requires forall i :: 0 <= i < k ==> !OccursAt(s, pat, i)
    ensures NoneBefore(s, pat, k)
    decreases k
  {
    if k > 0 {
      NoEarlierShift(s, pat, k);
      NoneBeforeHolds(s[1..], pat, k - 1);
    }
  }

  /** `ReplaceAllAt` on a text split around its first occurrence, by induction on the part before it. */
  lemma {:induction false} ReplaceAllSplit(pre: string, pat: string, post: string, rep: string)
    requires pat != [] && NoneBefore(pre + pat + post, pat, |pre|)
    ensures ReplaceAll(pre + pat + post, pat, rep) == pre + rep + ReplaceAll(post, pat, rep)
    decreases |pre|
  {
    if pre == [] {
      assert pre + pat + post == pat + post;
      ReplaceAllPrefix(pat, post, rep);
    } else {
      var whole := pre + pat + post;
      var rest := pre[1..] + pat + post;
      assert whole[1..] == rest;
      ReplaceAllSkip(whole, pat, rep);
      ReplaceAllSplit(pre[1..], pat, post, rep);
      ConsAssoc(pre[0], pre[1..], rep, ReplaceAll(post, pat, rep));
      assert [pre[0]] + pre[1..] == pre;
    }
  }

  /** Regrouping a character in front of three texts. */
  lemma ConsAssoc(c: char, a: string, b: string, d: string)
    ensures [c] + (a + b + d) == [c] + a + b + d
  {
  }

  /** The tail of a text with no occurrence before `k` has none before `k - 1`, and one at `k - 1`. */
  lemma NoEarlierShift(s: string, pat: string, k: int)
    requires 0 < k && OccursAt(s, pat, k)
    requires forall i :: 0 <= i < k ==> !OccursAt(s, pat, i)
    ensures !OccursAt(s, pat, 0)
    ensures OccursAt(s[1..], pat, k - 1)
    ensures forall i :: 0 <= i < k - 1 ==> !OccursAt(s[1..], pat, i)
  {
    OccursShift(s, pat, k - 1);
    forall i | 0 <= i < k - 1
      ensures !OccursAt(s[1..], pat, i)
    {
      OccursShift(s, pat, i);
    }
  }

  /** The translation table applied in order: the reference for one translated line. */
  function TranslateWith(line: string, table: seq<(string, string)>): string
    requires forall k :: 0 <= k < |table| ==> table[k].0 != []
  {
    if table == [] then line
    else
      var last := table[|table| - 1];
      ReplaceAll(TranslateWith(line, table[..|table| - 1]), last.0, last.1)
  }

  function TranslatedLine(line: string): string {
    TranslateWith(line, Translations)
  }

  /** A line in which no word of the table occurs is not changed. */
  lemma {:induction false} TranslateWithUntouched(line: string, table: seq<(string, string)>)
    requires forall k :: 0 <= k < |table| ==> table[k].0 != []
    requires forall k, i :: 0 <= k < |table| ==> !OccursAt(line, table[k].0, i)
    ensures TranslateWith(line, table) == line
  {
    if table != [] {
      var init := table[..|table| - 1];
      assert forall k :: 0 <= k < |init| ==> init[k] == table[k];
      TranslateWithUntouched(line, init);
      ReplaceAllAbsent(line, table[|table| - 1].0, table[|table| - 1].1);
    }
  }

  /**
   * The inner loop of `translatedWeekdayText`: `translatedLine` is replaced
   * word by word, in the order of the table.
   */
  method TranslateLine(line: string) returns (translatedLine: string)
    ensures translatedLine == TranslatedLine(line)
  {
    translatedLine := line;
    for k := 0 to |Translations|
      invariant translatedLine == TranslateWith(line, Translations[..k])
    {
      var (english, spanish) := Translations[k];
      assert Translations[..k + 1][..k] == Translations[..k];
      translatedLine := ReplaceAll(translatedLine, english, spanish);
    }
    assert Translations[..|Translations|] == Translations;
  }

  /** `translatedWeekdayText`: one translated line per line, in order. */
  method TranslateWeekdayText(lines: seq<string>) returns (translated: seq<string>)
    ensures |translated| == |lines|
    ensures forall i :: 0 <= i < |lines| ==> translated[i] == TranslatedLine(lines[i])
  {
    translated := [];
    for i := 0 to |lines|
      invariant |translated| == i
      invariant forall h :: 0 <= h < i ==> translated[h] == TranslatedLine(lines[h])
    {
      var t := TranslateLine(lines[i]);
      translated := translated + [t];
    }
  }

  // ----- the badge, the summary and the toggle ---------------------------------------------

  datatype StatusText = OpenNow | ClosedNow

  /** `'Abierto ahora'` exactly when `open_now` is truthy. */
  function Status(openNow: Option<bool>): (r: StatusText)
    ensures r == OpenNow <==> openNow == Some(true)
  {
    if openNow == Some(true) then OpenNow else ClosedNow
  }

  /** `str.replace('Closed', 'Cerrado')`: only the first occurrence is replaced. */
  function ReplaceFirst(s: string, pat: string, rep: string): string
    requires pat != []
    decreases |s|
  {
    if |s| < |pat| then s
    else if s[..|pat|] == pat then rep + s[|pat|..]
    else [s[0]] + ReplaceFirst(s[1..], pat, rep)
  }

  /** A text without the word is left as it is. */
  lemma {:induction false} ReplaceFirstAbsent(s: string, pat: string, rep: string)
    requires pat != []
    requires forall i :: !OccursAt(s, pat, i)
    ensures ReplaceFirst(s, pat, rep) == s
    decreases |s|
  {
    if |s| >= |pat| {
      assert !OccursAt(s, pat, 0);
      forall i | 0 <= i
        ensures !OccursAt(s[1..], pat, i)
      {
        OccursShift(s, pat, i);
      }
      calc {
        ReplaceFirst(s, pat, rep);
        [s[0]] + ReplaceFirst(s[1..], pat, rep);
        { ReplaceFirstAbsent(s[1..], pat, rep); }
        [s[0]] + s[1..];
        s;
      }
    }
  }

  /**
   * With the first occurrence at `k`, exactly that occurrence is replaced and
   * the text around it is kept.
   */
  lemma {:induction false} ReplaceFirstAt(s: string, pat: string, rep: string, k: int)
    requires pat != []
    requires OccursAt(s, pat, k)
    requires forall h :: 0 <= h < k ==> !OccursAt(s, pat, h)
    ensures ReplaceFirst(s, pat, rep) == s[..k] + rep + s[k + |pat|..]
    decreases k
  {
    if k == 0 {
      assert s[..|pat|] == pat;
    } else {
      var tail := s[1..];
      assert !OccursAt(s, pat, 0);
      OccursShift(s, pat, k - 1);
      forall h | 0 <= h < k - 1
        ensures !OccursAt(tail, pat, h)
      {
        OccursShift(s, pat, h);
      }
      calc {
        ReplaceFirst(s, pat, rep);
        [s[0]] + ReplaceFirst(tail, pat, rep);
        { ReplaceFirstAt(tail, pat, rep, k - 1); }
        [s[0]] + (tail[..k - 1] + rep + tail[k - 1 + |pat|..]);
        { assert tail[..k - 1] == s[1..k]; assert tail[k - 1 + |pat|..] == s[k + |pat|..]; }
        [s[0]] + (s[1..k] + rep + s[k + |pat|..]);
        { assert [s[0]] + s[1..k] == s[..k]; }
        s[..k] + rep + s[k + |pat|..];
      }
    }
  }

  /** An occurrence in the tail is an occurrence one position further in the whole text. */
  lemma OccursShift(s: string, pat: string, h: int)
    requires s != [] && 0 <= h
    ensures OccursAt(s[1..], pat, h) <==> OccursAt(s, pat, h + 1)
  {
    if h + |pat| <= |s[1..]| {
      assert s[1..][h..h + |pat|] == s[h + 1..h + 1 + |pat|];
    }
  }

  /** A text without the pattern's first letter has no occurrence of it. */
  lemma AbsentFirstLetter(s: string, pat: string)
    requires pat != [] && pat[0] !in s
    ensures forall i :: !OccursAt(s, pat, i)
  {
  }

  /** One translation step on a text that lacks the word's first letter. */
  lemma StepUntouched(line: string, k: int)
    requires 0 <= k < |Translations|
    requires Translations[k].0[0] !in line
    ensures ReplaceAll(line, Translations[k].0, Translations[k].1) == line
  {
    AbsentFirstLetter(line, Translations[k].0);
    ReplaceAllAbsent(line, Translations[k].0, Translations[k].1);
  }

  /** The first `k + 1` words of the table applied, in terms of the first `k`. */
  lemma TranslatePrefixStep(line: string, k: int)
    requires 0 <= k < |Translations|
    ensures TranslateWith(line, Translations[..k + 1])
            == ReplaceAll(TranslateWith(line, Translations[..k]), Translations[k].0, Translations[k].1)
  {
    assert Translations[..k + 1][..k] == Translations[..k];
  }

  /** Monday to Friday leave Google's Sunday line as it is. */
  lemma SundayClosedWeekdays()
    ensures TranslateWith("Sunday: Closed", Translations[..5]) == "Sunday: Closed"
  {
    var line := "Sunday: Closed";
    var week := Translations[..5];
    assert week == [("Monday", "Lunes"), ("Tuesday", "Martes"), ("Wednesday", "Miércoles"),
                    ("Thursday", "Jueves"), ("Friday", "Viernes")];
    forall k, i | 0 <= k < |week|
      ensures !OccursAt(line, week[k].0, i)
    {
      assert week[k].0[0] in "MTWF";
      AbsentFirstLetter(line, week[k].0);
    }
    TranslateWithUntouched(line, week);
  }

  /** A text that starts with the word and has no other occurrence of its first letter. */
  lemma ReplaceLeading(pat: string, rest: string, rep: string)
    requires pat != [] && pat[0] !in rest
    ensures ReplaceAll(pat + rest, pat, rep) == rep + rest
  {
    ReplaceAllPrefix(pat, rest, rep);
    AbsentFirstLetter(rest, pat);
    ReplaceAllAbsent(rest, pat, rep);
  }

  /** A text that ends with the word and has no earlier occurrence of its first letter. */
  lemma {:induction false} ReplaceTrailing(head: string, pat: string, rep: string)
    requires pat != [] && pat[0] !in head
    ensures ReplaceAll(head + pat, pat, rep) == head + rep
    decreases |head|
  {
    if head == [] {
      assert head + pat == pat + [];
      ReplaceAllPrefix(pat, [], rep);
    } else {
      var s := head + pat;
      assert |s| >= |pat| && s[0] == head[0] && s[0] != pat[0];
      calc {
        ReplaceAll(s, pat, rep);
        { assert s[..|pat|][0] == s[0]; }
        [s[0]] + ReplaceAll(s[1..], pat, rep);
        { assert s[1..] == head[1..] + pat; ReplaceTrailing(head[1..], pat, rep); }
        [head[0]] + (head[1..] + rep);
        { assert [head[0]] + head[1..] == head; }
        head + rep;
      }
    }
  }

  /** A text whose start does not match the word and whose rest lacks its first letter. */
  lemma ReplaceNoneAfterFirst(s: string, pat: string, rep: string)
    requires pat != [] && s != [] && !OccursAt(s, pat, 0) && pat[0] !in s[1..]
    ensures ReplaceAll(s, pat, rep) == s
  {
    AbsentFirstLetter(s[1..], pat);
    ReplaceAllAbsent(s[1..], pat, rep);
    assert [s[0]] + s[1..] == s;
  }

  /** The example line split where the translation steps act on it. */
  lemma SundayClosedPieces()
    ensures "Sunday: Closed" == "Sunday" + ": Closed"
    ensures "Domingo" + ": Closed" == "Domingo: " + "Closed"
    ensures "Domingo: " + "Cerrado" == "Domingo: Cerrado"
  {
  }

  /** "Saturday" does not start the Sunday line, and no later letter is an `S`. */
  lemma SundayClosedNoSaturday(line: string)
    requires line == "Sunday: Closed"
    ensures line != [] && !OccursAt(line, "Saturday", 0) && "Saturday"[0] !in line[1..]
  {
    assert line[1] != "Saturday"[1];
    assert line[1..] == "unday: Closed";
  }

  /** Saturday, the sixth entry, leaves the Sunday line as it is too. */
  lemma SundayClosedSaturday(line: string)
    requires line == "Sunday: Closed"
    ensures TranslateWith(line, Translations[..6]) == line
  {
    calc {
      TranslateWith(line, Translations[..6]);
      { TranslatePrefixStep(line, 5); }
      ReplaceAll(TranslateWith(line, Translations[..5]), "Saturday", "Sábado");
      { SundayClosedWeekdays(); }
      ReplaceAll(line, "Saturday", "Sábado");
      { SundayClosedNoSaturday(line); ReplaceNoneAfterFirst(line, "Saturday", "Sábado"); }
      line;
    }
  }

  /** The seventh entry turns the day into "Domingo". */
  lemma SundayClosedSunday(line: string)
    requires line == "Sunday: Closed"
    ensures TranslateWith(line, Translations[..7]) == "Domingo: " + "Closed"
  {
    calc {
      TranslateWith(line, Translations[..7]);
      { TranslatePrefixStep(line, 6); }
      ReplaceAll(TranslateWith(line, Translations[..6]), "Sunday", "Domingo");
      { SundayClosedSaturday(line); SundayClosedPieces(); }
      ReplaceAll("Sunday" + ": Closed", "Sunday", "Domingo");
      { ReplaceLeading("Sunday", ": Closed", "Domingo"); }
      "Domingo" + ": Closed";
      { SundayClosedPieces(); }
      "Domingo: " + "Closed";
    }
  }

  /** The widget's own example: Google's Sunday line reads in Spanish. */
  lemma TranslateSundayClosed(line: string)
    requires line == "Sunday: Closed"
    ensures TranslatedLine(line) == "Domingo: Cerrado"
  {
    calc {
      TranslatedLine(line);
      { assert Translations[..8] == Translations; }
      TranslateWith(line, Translations[..8]);
      { TranslatePrefixStep(line, 7); }
      ReplaceAll(TranslateWith(line, Translations[..7]), "Closed", "Cerrado");
      { SundayClosedSunday(line); }
      ReplaceAll("Domingo: " + "Closed", "Closed", "Cerrado");
      { ReplaceTrailing("Domingo: ", "Closed", "Cerrado"); }
      "Domingo: " + "Cerrado";
      { SundayClosedPieces(); }
      "Domingo: Cerrado";
    }
  }

  /** One row of the expanded list. */
  datatype Row = Row(text: string, highlighted: bool)

  datatype View = View(status: StatusText, todaysHours: string, rows: seq<Row>)

  /**
   * What the widget renders on day `jsDay`: nothing without data or without
   * `weekday_text`; otherwise the badge and today's hours, and, only while
   * expanded, one row per translated line with today's row highlighted.
   */
  function Render(data: Option<OpeningHoursData>, jsDay: int, isOpen: bool): (r: Option<View>)
    requires 0 <= jsDay <= 6
    ensures r.None? <==> data.None? || data.value.weekdayText.None?
    ensures r.Some? ==> r.value.status == Status(data.value.openNow)
    ensures r.Some? ==>
              r.value.todaysHours
              == ReplaceFirst(HoursPart(LineAt(data.value.weekdayText.value, TodayIndex(jsDay))), "Closed", "Cerrado")
    ensures r.Some? && !isOpen ==> r.value.rows == []
    ensures r.Some? && isOpen ==>
              var lines := data.value.weekdayText.value;
              && |r.value.rows| == |lines|
              && forall i :: 0 <= i < |lines| ==>
                   r.value.rows[i].text == TranslatedLine(lines[i])
                   && (r.value.rows[i].highlighted <==> i == TodayIndex(jsDay))
  {
    if data.None? || data.value.weekdayText.None? then None
    else
      var lines := data.value.weekdayText.value;
      var today := TodayIndex(jsDay);
      Some(View(Status(data.value.openNow), ReplaceFirst(HoursPart(LineAt(lines, today)), "Closed", "Cerrado"),
                Rows(lines, today, isOpen)))
  }

  /** The expanded list: nothing while collapsed, else one translated row per line, `today`'s highlighted. */
  function Rows(lines: seq<string>, today: int, isOpen: bool): (rows: seq<Row>)
    ensures !isOpen ==> rows == []
    ensures isOpen ==>
              && |rows| == |lines|
              && forall i :: 0 <= i < |lines| ==>
                   rows[i].text == TranslatedLine(lines[i]) && (rows[i].highlighted <==> i == today)
  {
    if isOpen then seq(|lines|, i requires 0 <= i < |lines| => Row(TranslatedLine(lines[i]), i == today))
    else []
  }

  /** The `isOpen` state: starts collapsed; each click flips it. */
  class HoursToggle {
    var isOpen: bool

    constructor ()
      ensures !isOpen
    {
      isOpen := false;
    }

    method Toggle()
      modifies this
      ensures isOpen == !old(isOpen)
    {
      isOpen := !isOpen;
    }
  }
}
