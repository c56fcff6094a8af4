/** The two date readers of the auto-post generator (auto_post_generator.js):
    `parseEventDate` for `DD/MM/YYYY` strings and `parseEventDateFromHoraires`
    for French short dates such as "sam 15 févr.". */
module EventDates {
  import opened Common
  import opened Text

  /** The `Date` a reader returns. `Now` is `new Date()`, the reading of the
      clock; `Calendar` holds the arguments of `new Date(year, month, day)`, the
      month counted from 0; `InvalidDate` is a `Date` built from a `NaN`;
      `Native` is `new Date(text)`, whose parsing is not part of this model. */
  datatype ParsedDate =
    | Now
    | Calendar(year: int, month: int, day: int)
    | InvalidDate
    | Native(text: string)

  // ---------------------------------------------------------------------------
  // parseEventDate

  /** `parseEventDate(dateStr)`; an absent string is "". An empty string is read
      as today; a string holding a '/' is read as day/month/year, with a `NaN`
      part (or a missing one) giving an invalid date; any other string is left
      to `new Date`. */
  function ParseEventDate(s: string): (r: ParsedDate)
    ensures s == "" <==> r.Now?
    ensures r.Native? <==> s != "" && '/' !in s
    ensures r.Native? ==> r.text == s
    ensures r.Calendar? ==> '/' in s && |Split(s, '/')| >= 3
    ensures s != "" && '/' in s ==>
              var p := Split(s, '/');
              (r.Calendar? <==> |p| >= 3 && ParseInt(p[0]).Some? && ParseInt(p[1]).Some? && ParseInt(p[2]).Some?)
              && (r.Calendar? ==> r.year == ParseInt(p[2]).value && r.month + 1 == ParseInt(p[1]).value
                                  && r.day == ParseInt(p[0]).value)
              && (!r.Calendar? ==> r.InvalidDate?)
  {
    if s == "" then Now
    else if '/' in s then
      var parts := Split(s, '/');
      if |parts| < 3 then InvalidDate
      else
        var day := ParseInt(parts[0]);
        var month := ParseInt(parts[1]);
        var year := ParseInt(parts[2]);
        if day.None? || month.None? || year.None? then InvalidDate
        else Calendar(year.value, month.value - 1, day.value)
    else Native(s)
  }

  /** The `DD/MM/YYYY` form of a date, the month counted from 1. */
  function SlashDate(day: nat, month: nat, year: nat): (s: string)
    ensures '/' in s
  {
    var s := Decimal(day) + "/" + Decimal(month) + "/" + Decimal(year);
    assert s[|Decimal(day)|] == '/';
    s
  }

  /** Reading a written `DD/MM/YYYY` date gives back its day, its year and its
      month shifted to count from 0. */
  lemma SlashDateRoundTrip(day: nat, month: nat, year: nat)
    ensures ParseEventDate(SlashDate(day, month, year)) == Calendar(year, month - 1, day)
  {
    var d, m, y := Decimal(day), Decimal(month), Decimal(year);
    NoSlashInDigits(d);
    NoSlashInDigits(m);
    NoSlashInDigits(y);
    SlashParts(d, m, y);
    DecimalAlone(day);
    DecimalAlone(month);
    DecimalAlone(year);
  }

  /** `k` zeros. */
  function Zeros(k: nat): (s: string)
    ensures |s| == k && forall i :: 0 <= i < k ==> s[i] == '0'
  {
    if k == 0 then "" else Zeros(k - 1) + "0"
  }

  /** The numeral of `n` behind `zeros` leading zeros, as in "05". */
  function Padded(n: nat, zeros: nat): (s: string)
    ensures forall i :: 0 <= i < |s| ==> IsDigit(s[i])
  {
    Zeros(zeros) + Decimal(n)
  }

  /** Leading zeros do not change the value of a run of digits. */
  lemma {:induction false} LeadingZeros(z: nat, ds: string)
    requires forall i :: 0 <= i < |ds| ==> IsDigit(ds[i])
    ensures forall i :: 0 <= i < |Zeros(z) + ds| ==> IsDigit((Zeros(z) + ds)[i])
    ensures DigitsValue(Zeros(z) + ds) == DigitsValue(ds)
    decreases z + |ds|
  {
    var s := Zeros(z) + ds;
    if |ds| > 0 {
      assert s[..|s| - 1] == Zeros(z) + ds[..|ds| - 1];
      LeadingZeros(z, ds[..|ds| - 1]);
    } else if z > 0 {
      assert s == Zeros(z - 1) + "0";
      assert s[..|s| - 1] == Zeros(z - 1) + "";
      LeadingZeros(z - 1, "");
    }
  }

  /** A padded numeral has no '/' and reads back as its number. */
  lemma PaddedReads(n: nat, zeros: nat)
    ensures '/' !in Padded(n, zeros) && ParseInt(Padded(n, zeros)) == Some(n)
  {
    var s := Padded(n, zeros);
    NoSlashInDigits(s);
    ParseIntDigits(s, "");
    assert s + "" == s;
    LeadingZeros(zeros, Decimal(n));
    DecimalValue(n);
  }

  /** Numerals with any number of leading zeros read back as day, month and
      year: "05/06/2024" is the 5th of June 2024. */
  lemma PaddedSlashDateRoundTrip(day: nat, month: nat, year: nat, zd: nat, zm: nat, zy: nat)
    ensures ParseEventDate(Padded(day, zd) + "/" + Padded(month, zm) + "/" + Padded(year, zy))
            == Calendar(year, month - 1, day)
  {
    PaddedReads(day, zd);
    PaddedReads(month, zm);
    PaddedReads(year, zy);
    ReadNumbers(Padded(day, zd), Padded(month, zm), Padded(year, zy), day, month, year);
  }

  /** Three slash-free parts that read as numbers give the date they name. */
  lemma ReadNumbers(d: string, m: string, y: string, dv: int, mv: int, yv: int)
    requires '/' !in d && '/' !in m && '/' !in y
    requires ParseInt(d) == Some(dv) && ParseInt(m) == Some(mv) && ParseInt(y) == Some(yv)
    ensures ParseEventDate(d + "/" + m + "/" + y) == Calendar(yv, mv - 1, dv)
  {
    ReadThreeParts(d, m, y);
  }

  /** Three slash-free parts are read one by one. */
  lemma ReadThreeParts(d: string, m: string, y: string)
    requires '/' !in d && '/' !in m && '/' !in y
    ensures var r := ParseEventDate(d + "/" + m + "/" + y);
            && (ParseInt(d).Some? && ParseInt(m).Some? && ParseInt(y).Some? ==>
                  r == Calendar(ParseInt(y).value, ParseInt(m).value - 1, ParseInt(d).value))
            && (ParseInt(d).None? || ParseInt(m).None? || ParseInt(y).None? ==> r == InvalidDate)
  {
    var s := d + "/" + m + "/" + y;
    assert s[|d|] == '/';
    SlashParts(d, m, y);
  }

  /** A part that is not a number makes the date invalid. */
  lemma LettersAreInvalid()
    ensures ParseEventDate("a/b/c") == InvalidDate
  {
    assert "a/b/c" == "a" + "/" + "b" + "/" + "c";
    assert TrimStart("a") == "a" && UnsignedPart("a") == "a";
    assert DigitPrefix("a") == "";
    ReadThreeParts("a", "b", "c");
  }

  /** Three slash-free pieces joined by '/' split back into those pieces. */
  lemma SlashParts(d: string, m: string, y: string)
    requires '/' !in d && '/' !in m && '/' !in y
    ensures Split(d + "/" + m + "/" + y, '/') == [d, m, y]
  {
    SplitCons(d, '/', m + "/" + y);
    SplitCons(m, '/', y);
    SplitWhole(y, '/');
    assert d + "/" + m + "/" + y == d + ['/'] + (m + ['/'] + y);
  }

  lemma NoSlashInDigits(ds: string)
    requires forall i :: 0 <= i < |ds| ==> IsDigit(ds[i])
    ensures '/' !in ds
  {
    assert forall i :: 0 <= i < |ds| ==> ds[i] != '/';
  }

  /** A numeral alone reads as its number. */
  lemma DecimalAlone(n: nat)
    ensures ParseInt(Decimal(n)) == Some(n)
  {
    ParseIntDecimal(n, "");
    assert Decimal(n) + "" == Decimal(n);
  }

  // ---------------------------------------------------------------------------
  // parseEventDateFromHoraires

  /** The keys of the `months` object literal, in month order. */
  const MonthNames: seq<string> :=
    ["janv", "févr", "mars", "avr", "mai", "juin", "juil", "août", "sept", "oct", "nov", "déc"]

  /** Keys every JavaScript object inherits from `Object.prototype`: looking
      one of them up in `months` gives a function or an object, not `undefined`. */
  const InheritedKeys: seq<string> :=
    ["constructor", "hasOwnProperty", "isPrototypeOf", "propertyIsEnumerable",
     "toLocaleString", "toString", "valueOf", "__proto__", "__defineGetter__",
     "__defineSetter__", "__lookupGetter__", "__lookupSetter__"]

  /** What `months[key]` gives: a month index, an inherited member, or `undefined`. */
  datatype MonthKey = Month(index: nat) | Inherited | Missing

  /** Position of the first occurrence of `x` in `s`. */
  function Position<T(==)>(s: seq<T>, x: T): (i: nat)
    requires x in s
    ensures i < |s| && s[i] == x && x !in s[..i]
  {
    if s[0] == x then 0
    else
      var i := Position(s[1..], x);
      assert s[..i + 1] == [s[0]] + s[1..][..i];
      i + 1
  }

  /** `months[key]`. */
  function MonthLookup(key: string): (m: MonthKey)
    ensures m.Month? <==> key in MonthNames
    ensures m.Month? ==> m.index < 12 && MonthNames[m.index] == key
    ensures m.Inherited? <==> key !in MonthNames && key in InheritedKeys
  {
    if key in MonthNames then Month(Position(MonthNames, key))
    else if key in InheritedKeys then Inherited
    else Missing
  }

  /** The twelve abbreviations are distinct, so each one looks up its own month. */
  lemma MonthLookupName(i: nat)
    requires i < 12
    ensures MonthLookup(MonthNames[i]) == Month(i)
  {
    assert forall a, b :: 0 <= a < b < 12 ==> MonthNames[a] != MonthNames[b];
    var j := Position(MonthNames, MonthNames[i]);
    assert MonthNames[i] !in MonthNames[..j];
  }

  /** `parseEventDateFromHoraires(horaire, prochaines)`; the first argument is
      never read, and an absent string is "". The string is split at spaces; the
      second piece is the day and the third, less its first '.', the month.
      Anything that does not fit falls back to today; an inherited key makes
      `new Date` receive a `NaN`. */
  function ParseEventDateFromHoraires(prochaines: string, year: int): (r: ParsedDate)
    ensures r.Calendar? ==> r.year == year && 0 <= r.month < 12
    ensures !r.Native?
    ensures var parts := Split(prochaines, ' ');
            r.Now? <==> prochaines == "" || |parts| < 3 || ParseInt(parts[1]).None?
                        || MonthLookup(RemoveFirst(parts[2], '.')).Missing?
    ensures r.Calendar? ==>
              var parts := Split(prochaines, ' ');
              |parts| >= 3 && ParseInt(parts[1]) == Some(r.day)
              && RemoveFirst(parts[2], '.') == MonthNames[r.month]
    ensures r.InvalidDate? ==>
              |Split(prochaines, ' ')| >= 3 && RemoveFirst(Split(prochaines, ' ')[2], '.') in InheritedKeys
  {
    if prochaines == "" then Now
    else
      var parts := Split(prochaines, ' ');
      if |parts| < 3 then Now
      else
        var day := ParseInt(parts[1]);
        var month := MonthLookup(RemoveFirst(parts[2], '.'));
        if day.None? || month.Missing? then Now
        else if month.Inherited? then InvalidDate
        else Calendar(year, month.index, day.value)
  }

  /** A French short date: a word without spaces, the day, the month's
      abbreviation and a dot, then nothing or more words after a space. */
  function FrenchDate(word: string, day: nat, month: nat, tail: string): string
    requires month < 12
  {
    word + " " + Decimal(day) + " " + MonthNames[month] + "." + tail
  }

  /** Reading a French short date gives back its day and its month, in the
      year of the clock. */
  lemma FrenchDateRoundTrip(word: string, day: nat, month: nat, tail: string, year: int)
    requires month < 12 && ' ' !in word
    requires tail == "" || tail[0] == ' '
    ensures ParseEventDateFromHoraires(FrenchDate(word, day, month, tail), year) == Calendar(year, month, day)
  {
    var d := Decimal(day);
    var name := MonthNames[month];
    var last := name + "." + tail;
    var s := FrenchDate(word, day, month, tail);
    assert s == word + [' '] + (d + [' '] + last);
    SplitCons(word, ' ', d + [' '] + last);
    NoSpaceInDigits(d);
    SplitCons(d, ' ', last);
    var parts := Split(s, ' ');
    assert parts == [word, d] + Split(last, ' ');
    MonthNameShape(month);
    ThirdPiece(name + ".", tail);
    assert parts[2] == name + ".";
    RemoveTrailingDot(name);
    MonthLookupName(month);
    DecimalAlone(day);
  }

  /** Splitting at the first separator: the head, then the pieces of the rest. */
  lemma {:induction false} SplitCons(head: string, sep: char, rest: string)
    requires sep !in head
    ensures Split(head + [sep] + rest, sep) == [head] + Split(rest, sep)
  {
    if |head| > 0 {
      SplitCons(head[1..], sep, rest);
      assert (head + [sep] + rest)[1..] == head[1..] + [sep] + rest;
      assert [head[0]] + head[1..] == head;
    } else {
      assert head + [sep] + rest == [sep] + rest;
    }
  }

  /** A string without the separator is one piece. */
  lemma {:induction false} SplitWhole(s: string, sep: char)
    requires sep !in s
    ensures Split(s, sep) == [s]
  {
    if |s| > 0 {
      SplitWhole(s[1..], sep);
      assert [s[0]] + s[1..] == s;
    }
  }

  /** The first piece of `p + tail` is `p` when the tail is empty or starts with a space. */
  lemma ThirdPiece(p: string, tail: string)
    requires ' ' !in p
    requires tail == "" || tail[0] == ' '
    ensures Split(p + tail, ' ')[0] == p
  {
    if tail == "" {
      assert p + tail == p;
      SplitWhole(p, ' ');
    } else {
      assert p + tail == p + [' '] + tail[1..];
      SplitHead(p, ' ', tail[1..]);
    }
  }

  /** No abbreviation holds a space or a dot. */
  lemma MonthNameShape(month: nat)
    requires month < 12
    ensures ' ' !in MonthNames[month] + "." && '.' !in MonthNames[month]
  {
  }

  lemma NoSpaceInDigits(ds: string)
    requires forall i :: 0 <= i < |ds| ==> IsDigit(ds[i])
    ensures ' ' !in ds
  {
    assert forall i :: 0 <= i < |ds| ==> ds[i] != ' ';
  }

  /** Removing the first '.' from a dot-free word followed by a dot gives the word. */
  lemma RemoveTrailingDot(w: string)
    requires '.' !in w
    ensures RemoveFirst(w + ".", '.') == w
  {
    var s := w + ".";
    assert s[|w|] == '.';
    assert forall k :: 0 <= k < |w| ==> s[k] == w[k] && s[k] != '.';
    assert IndexOf(s, '.') == |w|;
    assert s[..|w|] == w;
  }

  /** "sam 15 févr." is the 15th of February (month 1) of the current year. */
  lemma ShortDateExample(year: int)
    ensures ParseEventDateFromHoraires("sam 15 févr.", year) == Calendar(year, 1, 15)
  {
    assert "sam 15 févr." == FrenchDate("sam", 15, 1, "") by {
      assert Decimal(15) == Decimal(1) + ['5'];
    }
    FrenchDateRoundTrip("sam", 15, 1, "", year);
  }
}
