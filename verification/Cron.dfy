/** Five-field cron expressions: parsing a field item by item, what a parsed field
    means, and when an expression matches a minute. */
module Cron {
  import opened Sequences
  import opened Text

  datatype Error =
    | EmptyItem | InvalidStep | InvalidRange | DescendingRange | InvalidValue | OutOfRange | NoValues
    | NotFiveFields

  datatype Result<T> = Ok(value: T) | Err(error: Error)

  // ---------------------------------------------------------------------- numbers

  predicate IsDigit(c: char) {
    '0' <= c <= '9'
  }

  /** str.isdigit, for ASCII text: false of the empty string. */
  predicate Digits(s: string) {
    s != "" && forall i :: 0 <= i < |s| ==> IsDigit(s[i])
  }

  /** int(s) */
  function Number(s: string): nat
    requires forall i :: 0 <= i < |s| ==> IsDigit(s[i])
  {
    if s == "" then 0
    else
      assert IsDigit(s[|s| - 1]);
      10 * Number(s[..|s| - 1]) + (s[|s| - 1] as int - '0' as int)
  }

  /** str(n) */
  function Show(n: nat): string {
    var last := [(n % 10 + '0' as int) as char];
    if n < 10 then last else Show(n / 10) + last
  }

  lemma {:induction false} NumberShow(n: nat)
    ensures Digits(Show(n)) && Number(Show(n)) == n
  {
    if n >= 10 {
      NumberShow(n / 10);
      assert Show(n)[..|Show(n)| - 1] == Show(n / 10);
    }
  }

  /** Decimal places: each further digit makes the number ten times and that digit. */
  lemma NumberReads(s: string, c: char)
    requires (forall i :: 0 <= i < |s| ==> '0' <= s[i] <= '9') && '0' <= c <= '9'
    ensures Digits(s + [c]) && Number([]) == 0
    ensures Number(s + [c]) == 10 * Number(s) + (c as int - 48)
  {
    assert (s + [c])[..|s|] == s;
  }

  // ---------------------------------------------------------------------- one item

  /** s.partition(c) */
  function Partition(s: string, c: char): (string, bool, string) {
    if s == "" then ("", false, "")
    else if s[0] == c then ("", true, s[1..])
    else var (before, found, after) := Partition(s[1..], c); ([s[0]] + before, found, after)
  }

  lemma {:induction false} PartitionMeans(s: string, c: char)
    ensures var (before, found, after) := Partition(s, c);
            && c !in before && (found <==> c in s)
            && s == if found then before + [c] + after else before
  {
    if s != "" && s[0] != c {
      PartitionMeans(s[1..], c);
      assert s == [s[0]] + s[1..];
    }
  }

  lemma {:induction false} PartitionSplits(before: string, c: char, after: string)
    requires c !in before
    ensures Partition(before, c) == (before, false, "")
    ensures Partition(before + [c] + after, c) == (before, true, after)
  {
    if before != "" {
      PartitionSplits(before[1..], c, after);
      assert before == [before[0]] + before[1..];
      assert (before + [c] + after)[1..] == before[1..] + [c] + after;
    } else {
      assert ("" + [c] + after)[1..] == after;
    }
  }

  /** A parsed item: the values start, start + step, ... up to end. */
  datatype Span = Span(start: nat, end: nat, step: nat)

  predicate Selects(span: Span, v: int) {
    span.step > 0 && span.start <= v <= span.end && (v - span.start) % span.step == 0
  }

  /** The first and last value an item's base names. */
  function Bounds(base: string, stepped: bool, minimum: nat, maximum: nat): Result<(nat, nat)> {
    if base == "*" then Ok((minimum, maximum))
    else if '-' in base then
      var (first, _, last) := Partition(base, '-');
      if !Digits(first) || !Digits(last) then Err(InvalidRange)
      else if Number(first) > Number(last) then Err(DescendingRange)
      else Ok((Number(first), Number(last)))
    else if Digits(base) then Ok((Number(base), if stepped then maximum else Number(base)))
    else Err(InvalidValue)
  }

  /** One comma item of a field. */
  function ParseItem(item: string, minimum: nat, maximum: nat): Result<Span> {
    if item == "" then Err(EmptyItem)
    else
      var (base, slash, stepText) := Partition(item, '/');
      if slash && (!Digits(stepText) || Number(stepText) < 1) then Err(InvalidStep)
      else
        match Bounds(base, slash, minimum, maximum)
        case Err(e) => Err(e)
        case Ok((start, end)) =>
          if start < minimum || end > maximum then Err(OutOfRange)
          else Ok(Span(start, end, if slash then Number(stepText) else 1))
  }

  /** Every form of item, from its text. A star is the whole range, a number by itself
      that number, a number with a step everything from it on, a dash makes a range; a
      range or number must keep within the limits, though a stepped number beyond them
      just selects nothing. What fails to be one of these says why. */
  lemma ItemForms(base: string, stepped: bool, stepText: string, minimum: nat, maximum: nat)
    requires '/' !in base && (base != "" || stepped)
    ensures var r := ParseItem(if stepped then base + "/" + stepText else base, minimum, maximum);
            if stepped && !(Digits(stepText) && Number(stepText) >= 1) then r == Err(InvalidStep)
            else
              var step := if stepped then Number(stepText) else 1;
              if base == "*" then r == Ok(Span(minimum, maximum, step))
              else if Digits(base) then
                var n := Number(base);
                r == if n < minimum || (!stepped && n > maximum) then Err(OutOfRange)
                     else Ok(Span(n, if stepped then maximum else n, step))
              else '-' !in base ==> r == Err(InvalidValue)
  {
    var item := if stepped then base + "/" + stepText else base;
    PartitionSplits(base, '/', stepText);
    assert "/" == ['/'];
    if Digits(base) { assert '-' !in base && base != "*" by { assert IsDigit(base[0]); } }
    hide Partition, Number;
  }

  /** The same of a range: base is what stands before the slash. */
  lemma RangeForms(first: string, last: string, stepped: bool, stepText: string, minimum: nat, maximum: nat)
    requires '-' !in first && '/' !in first && '/' !in last
    requires stepped ==> Digits(stepText) && Number(stepText) >= 1
    ensures var base := first + "-" + last;
            var r := ParseItem(if stepped then base + "/" + stepText else base, minimum, maximum);
            r == if !Digits(first) || !Digits(last) then Err(InvalidRange)
                 else if Number(first) > Number(last) then Err(DescendingRange)
                 else if Number(first) < minimum || Number(last) > maximum then Err(OutOfRange)
                 else Ok(Span(Number(first), Number(last), if stepped then Number(stepText) else 1))
  {
    var base := first + ['-'] + last;
    assert "/" == ['/'] && "-" == ['-'];
    PartitionSplits(base, '/', stepText);
    PartitionSplits(first, '-', last);
    assert base[|first|] == '-';
    assert base != "*" && '-' in base;
    hide Partition, Number;
  }

  /** How a span is written. */
  function ShowSpan(span: Span): string {
    Show(span.start) + "-" + Show(span.end) + "/" + Show(span.step)
  }

  lemma ShowIsPlain(n: nat)
    ensures '-' !in Show(n) && '/' !in Show(n) && ',' !in Show(n) && '*' !in Show(n) && Show(n) != ""
  {
    NumberShow(n);
  }

  /** Every ascending span within the limits can be written, and reads back as itself. */
  lemma SpanRoundTrip(span: Span, minimum: nat, maximum: nat)
    requires minimum <= span.start <= span.end <= maximum && span.step >= 1
    ensures ParseItem(ShowSpan(span), minimum, maximum) == Ok(span)
    ensures ',' !in ShowSpan(span) && ShowSpan(span) != "" && ShowSpan(span)[0] != '*'
  {
    var a, b, c := Show(span.start), Show(span.end), Show(span.step);
    NumberShow(span.start);
    NumberShow(span.end);
    NumberShow(span.step);
    ShowIsPlain(span.start);
    ShowIsPlain(span.end);
    ShowIsPlain(span.step);
    assert ShowSpan(span) == (a + ['-'] + b) + ['/'] + c;
    PartitionSplits(a + ['-'] + b, '/', c);
    PartitionSplits(a, '-', b);
    assert (a + ['-'] + b)[|a|] == '-';
    assert '-' in a + ['-'] + b && a + ['-'] + b != "*" && ShowSpan(span)[0] == a[0];
  }

  // --------------------------------------------------------------------- one field

  /** range(start, end + 1, step) */
  function Range(start: nat, end: nat, step: nat): set<int>
    requires step > 0
    decreases end + 1 - start
  {
    if start > end then {} else {start as int} + Range(start + step, end, step)
  }

  lemma {:induction false} RangeMeans(start: nat, end: nat, step: nat, v: int)
    requires step > 0
    ensures v in Range(start, end, step) <==> Selects(Span(start, end, step), v)
    decreases end + 1 - start
  {
    hide Selects;
    if start <= end {
      RangeMeans(start + step, end, step, v);
      SelectsNext(start, end, step, v);
    } else {
      SelectsNone(start, end, step, v);
    }
  }

  lemma SelectsNone(start: nat, end: nat, step: nat, v: int)
    requires start > end
    ensures !Selects(Span(start, end, step), v)
  {
  }

  /** A span selects its start and what the span one step on selects. */
  lemma SelectsNext(start: nat, end: nat, step: nat, v: int)
    requires step > 0 && start <= end
    ensures Selects(Span(start, end, step), v) <==> v == start || Selects(Span(start + step, end, step), v)
  {
    if v == start {
      OneStepOn(0, step);
    } else if v > start {
      OneStepOn(v - start, step);
      assert v - (start + step) == v - start - step;
    }
  }

  lemma OneStepOn(n: int, step: nat)
    requires step > 0 && n >= 0
    ensures n % step == 0 <==> n == 0 || (n >= step && (n - step) % step == 0)
  {
    if n == 0 {
      SameRemainder(0, 0, 0, step);
    } else if n >= step {
      var q := (n - step) / step;
      assert n - step == q * step + (n - step) % step;
      assert n == (q + 1) * step + (n - step) % step;
      SameRemainder(n, q + 1, (n - step) % step, step);
    } else {
      assert n % step == n by { SameRemainder(n, 0, n, step); }
    }
  }

  lemma SameRemainder(n: int, q: int, r: int, step: nat)
    requires step > 0 && 0 <= r < step && n == q * step + r
    ensures n % step == r
  {
    Multiples(q - n / step, step);
    Distributes(q, n / step, step);
  }

  lemma Multiples(k: int, step: nat)
    requires step > 0
    ensures k >= 1 ==> k * step >= step
    ensures k <= -1 ==> k * step + step <= 0
  {
  }

  lemma Distributes(a: int, b: int, c: int)
    ensures (a - b) * c == a * c - b * c
  {
  }

  /** A parsed field: its values and whether its text began with a star. */
  datatype Field = Field(values: set<int>, wildcard: bool)

  /** The values of the items read so far, or the first error. */
  function Collected(items: seq<string>, minimum: nat, maximum: nat): Result<set<int>> {
    if items == [] then Ok({})
    else
      match Collected(items[..|items| - 1], minimum, maximum)
      case Err(e) => Err(e)
      case Ok(values) =>
        match ParseItem(items[|items| - 1], minimum, maximum)
        case Err(e) => Err(e)
        case Ok(span) => Ok(if span.step > 0 then values + Range(span.start, span.end, span.step) else values)
  }

  /** 7 is read as Sunday, 0. */
  function Folded(values: set<int>, weekday: bool): set<int> {
    if weekday && 7 in values then values - {7} + {0} else values
  }

  /** _field_values */
  function FieldOf(token: string, minimum: nat, maximum: nat, weekday: bool): Result<Field> {
    match Collected(Split(token, ','), minimum, maximum)
    case Err(e) => Err(e)
    case Ok(values) =>
      if values == {} then Err(NoValues)
      else Ok(Field(Folded(values, weekday), token != "" && token[0] == '*'))
  }

  /** _field_values, with its loop. */
  method FieldValues(token: string, minimum: nat, maximum: nat, weekday: bool) returns (r: Result<Field>)
    ensures r == FieldOf(token, minimum, maximum, weekday)
  {
    hide ParseItem, Range;
    var values: set<int> := {};
    var wildcard := token != "" && token[0] == '*';
    var items := Split(token, ',');
    for k := 0 to |items|
      invariant Collected(items[..k], minimum, maximum) == Ok(values)
    {
      CollectedStep(items, k, minimum, maximum);
      var span := ParseItem(items[k], minimum, maximum);
      if span.Err? {
        CollectedStops(items, k + 1, minimum, maximum);
        return Err(span.error);
      }
      StepIsPositive(items[k], minimum, maximum);
      values := values + Range(span.value.start, span.value.end, span.value.step);
    }
    assert items[..|items|] == items;
    if values == {} { return Err(NoValues); }
    if weekday && 7 in values { values := values - {7} + {0}; }
    r := Ok(Field(values, wildcard));
  }

  lemma StepIsPositive(item: string, minimum: nat, maximum: nat)
    ensures ParseItem(item, minimum, maximum).Ok? ==> ParseItem(item, minimum, maximum).value.step > 0
  {
  }

  lemma CollectedStep(items: seq<string>, k: nat, minimum: nat, maximum: nat)
    requires k < |items|
    ensures Collected(items[..k + 1], minimum, maximum)
         == match Collected(items[..k], minimum, maximum)
            case Err(e) => Err(e)
            case Ok(values) =>
              match ParseItem(items[k], minimum, maximum)
              case Err(e) => Err(e)
              case Ok(span) => Ok(if span.step > 0 then values + Range(span.start, span.end, span.step) else values)
  {
    hide ParseItem, Range;
    assert items[..k + 1][..k] == items[..k];
  }

  /** An error among the first k items is the error of them all. */
  lemma {:induction false} CollectedStops(items: seq<string>, k: nat, minimum: nat, maximum: nat)
    requires k <= |items| && Collected(items[..k], minimum, maximum).Err?
    ensures Collected(items, minimum, maximum) == Collected(items[..k], minimum, maximum)
    decreases |items| - k
  {
    if k == |items| {
      assert items[..k] == items;
    } else {
      CollectedStep(items, k, minimum, maximum);
      CollectedStops(items, k + 1, minimum, maximum);
    }
  }

  /** The error of a field is that of its first item that does not parse. */
  lemma {:induction false} FirstErrorWins(items: seq<string>, k: nat, minimum: nat, maximum: nat)
    requires k < |items| && ParseItem(items[k], minimum, maximum).Err?
    requires forall i :: 0 <= i < k ==> ParseItem(items[i], minimum, maximum).Ok?
    ensures Collected(items, minimum, maximum) == Err(ParseItem(items[k], minimum, maximum).error)
  {
    hide ParseItem, Range;
    AllOkSoFar(items, k, minimum, maximum);
    CollectedStep(items, k, minimum, maximum);
    CollectedStops(items, k + 1, minimum, maximum);
  }

  lemma {:induction false} AllOkSoFar(items: seq<string>, k: nat, minimum: nat, maximum: nat)
    requires k <= |items|
    requires forall i :: 0 <= i < k ==> ParseItem(items[i], minimum, maximum).Ok?
    ensures Collected(items[..k], minimum, maximum).Ok?
    decreases k
  {
    hide ParseItem, Range;
    if k > 0 {
      AllOkSoFar(items, k - 1, minimum, maximum);
      CollectedStep(items, k - 1, minimum, maximum);
    }
  }

  // ----------------------------------------------------------- what a field denotes

  predicate ItemSelects(item: string, minimum: nat, maximum: nat, v: int) {
    var span := ParseItem(item, minimum, maximum);
    span.Ok? && Selects(span.value, v)
  }

  /** Some comma item of the token selects v. */
  ghost predicate Denotes(token: string, minimum: nat, maximum: nat, v: int) {
    exists item :: item in Split(token, ',') && ItemSelects(item, minimum, maximum, v)
  }

  ghost predicate AllParse(items: seq<string>, minimum: nat, maximum: nat) {
    forall i :: 0 <= i < |items| ==> ParseItem(items[i], minimum, maximum).Ok?
  }

  lemma {:induction false} CollectedMeans(items: seq<string>, minimum: nat, maximum: nat)
    ensures Collected(items, minimum, maximum).Ok? <==> AllParse(items, minimum, maximum)
    ensures Collected(items, minimum, maximum).Ok? ==>
              forall v :: v in Collected(items, minimum, maximum).value <==>
                            exists i :: 0 <= i < |items| && ItemSelects(items[i], minimum, maximum, v)
  {
    hide ParseItem, Range, Selects;
    if items != [] {
      var n := |items| - 1;
      var front, last := items[..n], items[n];
      CollectedMeans(front, minimum, maximum);
      var all := Collected(items, minimum, maximum);
      if AllParse(items, minimum, maximum) {
        forall i | 0 <= i < n ensures ParseItem(front[i], minimum, maximum).Ok? { assert front[i] == items[i]; }
      }
      if all.Ok? {
        forall i | 0 <= i < |items|
          ensures ParseItem(items[i], minimum, maximum).Ok?
        {
          assert i < n ==> items[i] == front[i];
        }
        var span := ParseItem(last, minimum, maximum).value;
        StepIsPositive(last, minimum, maximum);
        forall v
          ensures v in all.value <==> exists i :: 0 <= i < |items| && ItemSelects(items[i], minimum, maximum, v)
        {
          RangeMeans(span.start, span.end, span.step, v);
          SelectedBySome(items, minimum, maximum, v);
        }
      }
    }
  }

  lemma SelectedBySome(items: seq<string>, minimum: nat, maximum: nat, v: int)
    requires items != []
    ensures var front, last := items[..|items| - 1], items[|items| - 1];
            (exists i :: 0 <= i < |items| && ItemSelects(items[i], minimum, maximum, v)) <==>
            (exists i :: 0 <= i < |front| && ItemSelects(front[i], minimum, maximum, v))
                || ItemSelects(last, minimum, maximum, v)
  {
    hide ItemSelects;
    var n := |items| - 1;
    var front := items[..n];
    if i :| 0 <= i < |items| && ItemSelects(items[i], minimum, maximum, v) {
      if i < n { assert front[i] == items[i]; }
    }
    if i :| 0 <= i < |front| && ItemSelects(front[i], minimum, maximum, v) { assert items[i] == front[i]; }
  }

  /** A field parses exactly when every item does and some value is selected; its
      values are then the selected ones, 7 standing for 0 on weekdays; and they are all
      within the limits. */
  lemma FieldMeans(token: string, minimum: nat, maximum: nat, weekday: bool)
    requires weekday ==> minimum == 0 && maximum == 7
    ensures var r := FieldOf(token, minimum, maximum, weekday);
            && (r.Ok? <==>
                  AllParse(Split(token, ','), minimum, maximum) && exists v :: Denotes(token, minimum, maximum, v))
            && (AllParse(Split(token, ','), minimum, maximum) && !r.Ok? ==> r == Err(NoValues))
            && (r.Ok? ==> forall v :: v in r.value.values <==>
                  if !weekday then Denotes(token, minimum, maximum, v)
                  else
                    && v != 7
                    && (Denotes(token, minimum, maximum, v) || (v == 0 && Denotes(token, minimum, maximum, 7))))
            && (r.Ok? ==> r.value.values != {} && forall v :: v in r.value.values ==> minimum <= v <= maximum)
  {
    hide ParseItem, Range, Split, ItemSelects, Collected, AllParse;
    var items := Split(token, ',');
    CollectedMeans(items, minimum, maximum);
    var c := Collected(items, minimum, maximum);
    if c.Ok? {
      forall v ensures v in c.value <==> Denotes(token, minimum, maximum, v) {
        if i :| 0 <= i < |items| && ItemSelects(items[i], minimum, maximum, v) { assert items[i] in items; }
        if Denotes(token, minimum, maximum, v) {
          var item :| item in items && ItemSelects(item, minimum, maximum, v);
          var i :| 0 <= i < |items| && items[i] == item;
        }
      }
      forall v | v in c.value ensures minimum <= v <= maximum {
        var item :| item in items && ItemSelects(item, minimum, maximum, v);
        SelectedInRange(item, minimum, maximum, v);
      }
    }
  }

  lemma SelectedInRange(item: string, minimum: nat, maximum: nat, v: int)
    requires ItemSelects(item, minimum, maximum, v)
    ensures minimum <= v <= maximum
  {
    hide Digits, Number, Partition;
  }

  // ------------------------------------------------------------------ written fields

  /** A list of spans as a field is written. */
  function ShowSpans(spans: seq<Span>): seq<string> {
    seq(|spans|, i requires 0 <= i < |spans| => ShowSpan(spans[i]))
  }

  ghost predicate Within(spans: seq<Span>, minimum: nat, maximum: nat) {
    forall i :: 0 <= i < |spans| ==> minimum <= spans[i].start <= spans[i].end <= maximum && spans[i].step >= 1
  }

  ghost predicate SomeSelects(spans: seq<Span>, v: int) {
    exists i :: 0 <= i < |spans| && Selects(spans[i], v)
  }

  /** Every nonempty list of ascending spans within the limits can be written as a
      field, which reads back as exactly the values the spans select, 7 standing for 0
      in a weekday field. */
  lemma FieldRoundTrip(spans: seq<Span>, minimum: nat, maximum: nat, weekday: bool)
    requires spans != [] && Within(spans, minimum, maximum)
    requires weekday ==> minimum == 0 && maximum == 7
    ensures var r := FieldOf(Join(ShowSpans(spans), ','), minimum, maximum, weekday);
            && r.Ok? && !r.value.wildcard
            && forall v :: v in r.value.values <==>
                 if !weekday then SomeSelects(spans, v)
                 else v != 7 && (SomeSelects(spans, v) || (v == 0 && SomeSelects(spans, 7)))
  {
    hide Range, Collected, ParseItem, ShowSpan, Split, Join, FieldOf, Selects;
    var items := ShowSpans(spans);
    var token := Join(items, ',');
    forall i | 0 <= i < |items| ensures ',' !in items[i] && ParseItem(items[i], minimum, maximum) == Ok(spans[i]) {
      SpanRoundTrip(spans[i], minimum, maximum);
    }
    SplitJoin(items, ',');
    SpanRoundTrip(spans[0], minimum, maximum);
    StartsAs(items, ',');
    FieldMeans(token, minimum, maximum, weekday);
    forall v ensures Denotes(token, minimum, maximum, v) <==> SomeSelects(spans, v) {
      if Denotes(token, minimum, maximum, v) {
        var item :| item in items && ItemSelects(item, minimum, maximum, v);
        var i :| 0 <= i < |items| && items[i] == item;
        assert Selects(spans[i], v);
      }
      if SomeSelects(spans, v) {
        var i :| 0 <= i < |spans| && Selects(spans[i], v);
        assert items[i] in items && ItemSelects(items[i], minimum, maximum, v);
      }
    }
    StartSelected(spans[0]);
    assert SomeSelects(spans, spans[0].start);
    FlagIs(token, minimum, maximum, weekday);
  }

  lemma StartSelected(span: Span)
    requires span.start <= span.end && span.step >= 1
    ensures Selects(span, span.start)
  {
    assert 0 % span.step == 0;
  }

  lemma StartsAs(items: seq<string>, sep: char)
    requires items != [] && items[0] != ""
    ensures Join(items, sep) != "" && Join(items, sep)[0] == items[0][0]
  {
  }

  lemma FlagIs(token: string, minimum: nat, maximum: nat, weekday: bool)
    ensures var r := FieldOf(token, minimum, maximum, weekday);
            r.Ok? ==> (r.value.wildcard <==> token != "" && token[0] == '*')
  {
  }

  // -------------------------------------------------------------------- expressions

  /** str.split(): the runs of characters that are not spaces; word is the run being
      read. */
  function WordsFrom(s: string, word: string): seq<string> {
    var done := if word == "" then [] else [word];
    if s == "" then done
    else if IsSpace(s[0]) then done + WordsFrom(s[1..], "")
    else WordsFrom(s[1..], word + [s[0]])
  }

  function Words(s: string): seq<string> {
    WordsFrom(s, "")
  }

  ghost predicate IsWord(w: string) {
    w != "" && forall i :: 0 <= i < |w| ==> !IsSpace(w[i])
  }

  lemma {:induction false} WordsAreWords(s: string, word: string)
    requires word == "" || IsWord(word)
    ensures forall i :: 0 <= i < |WordsFrom(s, word)| ==> IsWord(WordsFrom(s, word)[i])
  {
    if s != "" {
      if IsSpace(s[0]) { WordsAreWords(s[1..], ""); } else { WordsAreWords(s[1..], word + [s[0]]); }
    }
  }

  lemma {:induction false} WordAhead(w: string, rest: string, word: string)
    requires (forall i :: 0 <= i < |w| ==> !IsSpace(w[i])) && (rest == "" || IsSpace(rest[0]))
    ensures WordsFrom(w + rest, word) == WordsFrom(rest, word + w)
  {
    if w == "" {
      assert w + rest == rest && word + w == word;
    } else {
      assert (w + rest)[0] == w[0] && (w + rest)[1..] == w[1..] + rest && word + w == word + [w[0]] + w[1..];
      WordAhead(w[1..], rest, word + [w[0]]);
    }
  }

  lemma {:induction false} SpacesSkipped(pad: string, rest: string)
    requires forall i :: 0 <= i < |pad| ==> IsSpace(pad[i])
    ensures Words(pad + rest) == Words(rest)
  {
    if pad == "" {
      assert pad + rest == rest;
    } else {
      assert (pad + rest)[0] == pad[0] && (pad + rest)[1..] == pad[1..] + rest;
      SpacesSkipped(pad[1..], rest);
    }
  }

  /** The words of a text, one by one: what comes first after any spaces, up to the next
      space or the end; and spaces alone hold none. */
  lemma WordsStep(pad: string, w: string, rest: string)
    requires (forall i :: 0 <= i < |pad| ==> IsSpace(pad[i])) && IsWord(w) && (rest == "" || IsSpace(rest[0]))
    ensures Words(pad + (w + rest)) == [w] + Words(rest)
    ensures Words(pad) == []
  {
    SpacesSkipped(pad, w + rest);
    SpacesSkipped(pad, "");
    assert pad + "" == pad && "" + w == w;
    WordAhead(w, rest, "");
  }

  /** Words joined by single spaces split back into the same words. */
  lemma {:induction false} WordsOfJoin(ws: seq<string>)
    requires forall i :: 0 <= i < |ws| ==> IsWord(ws[i])
    ensures Words(Join(ws, ' ')) == ws
  {
    if ws != [] {
      var w := ws[0];
      assert "" + w == w && w + "" == w;
      if |ws| == 1 {
        WordAhead(w, "", "");
      } else {
        var rest := Join(ws[1..], ' ');
        WordsOfJoin(ws[1..]);
        WordAhead(w, [' '] + rest, "");
        HeadTail(' ', rest);
        Associates(w, [' '], rest);
        assert IsSpace(' ') && [w] + ws[1..] == ws;
      }
    }
  }

  datatype Schedule = Schedule(minute: Field, hour: Field, day: Field, month: Field, weekday: Field)

  /** parse_cron: fields are read in order, the first bad one being reported. */
  function ParseCron(expression: string): Result<Schedule> {
    var ws := Words(expression);
    if |ws| != 5 then Err(NotFiveFields)
    else
      match FieldOf(ws[0], 0, 59, false) case Err(e) => Err(e) case Ok(minute) =>
      match FieldOf(ws[1], 0, 23, false) case Err(e) => Err(e) case Ok(hour) =>
      match FieldOf(ws[2], 1, 31, false) case Err(e) => Err(e) case Ok(day) =>
      match FieldOf(ws[3], 1, 12, false) case Err(e) => Err(e) case Ok(month) =>
      match FieldOf(ws[4], 0, 7, true) case Err(e) => Err(e) case Ok(weekday) =>
      Ok(Schedule(minute, hour, day, month, weekday))
  }

  /** A UTC minute; weekday counts from Monday, as datetime.weekday does. */
  datatype When = When(minute: nat, hour: nat, day: nat, month: nat, weekday: nat)

  predicate Real(w: When) {
    w.minute < 60 && w.hour < 24 && 1 <= w.day <= 31 && 1 <= w.month <= 12 && w.weekday < 7
  }

  /** Sunday is 0. */
  function CronWeekday(w: When): nat {
    (w.weekday + 1) % 7
  }

  /** The day rule of cron_matches. */
  predicate DayMatches(day: Field, weekday: Field, d: int, w: int) {
    if day.wildcard && weekday.wildcard then true
    else if day.wildcard then w in weekday.values
    else if weekday.wildcard then d in day.values
    else d in day.values || w in weekday.values
  }

  /** cron_matches */
  function CronMatches(expression: string, w: When): Result<bool> {
    match ParseCron(expression)
    case Err(e) => Err(e)
    case Ok(s) =>
      if w.minute !in s.minute.values || w.hour !in s.hour.values || w.month !in s.month.values then Ok(false)
      else Ok(DayMatches(s.day, s.weekday, w.day, CronWeekday(w)))
  }

  // ------------------------------------------------------------- what it matches

  /** A day token that is a bare star, or does not begin with one. */
  predicate Standard(token: string) {
    token == "*" || token == "" || token[0] != '*'
  }

  lemma StarIsAll(minimum: nat, maximum: nat, v: int)
    ensures Denotes("*", minimum, maximum, v) <==> minimum <= v <= maximum
  {
    SplitWhole("*", ',');
    PartitionSplits("*", '/', "");
    assert "*" in Split("*", ',');
    assert (v - minimum) % 1 == 0;
    assert ItemSelects("*", minimum, maximum, v) <==> minimum <= v <= maximum;
  }

  /** An expression is valid exactly when it has five fields and each is; otherwise the
      first bad one is reported. */
  lemma ValidExactly(expression: string)
    ensures var ws, r := Words(expression), ParseCron(expression);
            if |ws| != 5 then r == Err(NotFiveFields)
            else
              var minute, hour := FieldOf(ws[0], 0, 59, false), FieldOf(ws[1], 0, 23, false);
              var day, month := FieldOf(ws[2], 1, 31, false), FieldOf(ws[3], 1, 12, false);
              var weekday := FieldOf(ws[4], 0, 7, true);
              && (r.Ok? <==> minute.Ok? && hour.Ok? && day.Ok? && month.Ok? && weekday.Ok?)
              && (minute.Err? ==> r == Err(minute.error))
              && (minute.Ok? && hour.Err? ==> r == Err(hour.error))
              && (minute.Ok? && hour.Ok? && day.Err? ==> r == Err(day.error))
              && (minute.Ok? && hour.Ok? && day.Ok? && month.Err? ==> r == Err(month.error))
              && (minute.Ok? && hour.Ok? && day.Ok? && month.Ok? && weekday.Err? ==> r == Err(weekday.error))
    ensures forall w :: ParseCron(expression).Err? ==>
              CronMatches(expression, w) == Err(ParseCron(expression).error)
  {
    hide Words, FieldOf;
  }

  /** A real minute matches a valid expression exactly when its minute, hour and month
      are selected and its day is. A day field that begins with a star is not asked. So
      by the standard fields the day is selected by both when one of them is a bare
      star, and by either when neither is. Sunday is 0, or 7. */
  lemma MatchesMeans(expression: string, w: When)
    requires Real(w) && ParseCron(expression).Ok?
    ensures var ws := Words(expression);
            var sunday := w.weekday == 6;
            var day := Denotes(ws[2], 1, 31, w.day);
            var weekday := if sunday then Denotes(ws[4], 0, 7, 0) || Denotes(ws[4], 0, 7, 7)
                           else Denotes(ws[4], 0, 7, w.weekday + 1);
            var anyDay, anyWeekday := ws[2] != "" && ws[2][0] == '*', ws[4] != "" && ws[4][0] == '*';
            var others := && Denotes(ws[0], 0, 59, w.minute) && Denotes(ws[1], 0, 23, w.hour)
                          && Denotes(ws[3], 1, 12, w.month);
            var r := CronMatches(expression, w);
            && r.Ok?
            && (r.value <==> others && if anyDay then anyWeekday || weekday else day || (!anyWeekday && weekday))
            && (Standard(ws[2]) && Standard(ws[4]) ==>
                  (r.value <==> others && if ws[2] == "*" || ws[4] == "*" then day && weekday else day || weekday))
  {
    hide Denotes, Words, AllParse, Split, FieldOf;
    var ws := Words(expression);
    FieldMeans(ws[0], 0, 59, false);
    FieldMeans(ws[1], 0, 23, false);
    FieldMeans(ws[2], 1, 31, false);
    FieldMeans(ws[3], 1, 12, false);
    FieldMeans(ws[4], 0, 7, true);
    StarIsAll(1, 31, w.day);
    StarIsAll(0, 7, CronWeekday(w));
    DayFlags(expression);
  }

  lemma DayFlags(expression: string)
    requires ParseCron(expression).Ok?
    ensures var ws, s := Words(expression), ParseCron(expression).value;
            && (s.day.wildcard <==> ws[2] != "" && ws[2][0] == '*')
            && (s.weekday.wildcard <==> ws[4] != "" && ws[4][0] == '*')
  {
    hide Words, Collected, Split;
  }

  // -------------------------------------------------- where the day rule is not cron's

  /** The standard rule: a field restricts when its text is not a bare star. */
  predicate StandardDay(day: Field, dayStar: bool, weekday: Field, weekdayStar: bool, d: int, w: int) {
    if dayStar && weekdayStar then true
    else if dayStar then w in weekday.values
    else if weekdayStar then d in day.values
    else d in day.values || w in weekday.values
  }

  predicate FullDay(f: Field) {
    forall d :: 1 <= d <= 31 ==> d in f.values
  }

  predicate FullWeek(f: Field) {
    forall w :: 0 <= w < 7 ==> w in f.values
  }

  /** A field as its text gives it: a bare star is flagged and full, and what is
      selected is within the limits. */
  predicate DayField(f: Field, star: bool) {
    f.values != {} && (forall d :: d in f.values ==> 1 <= d <= 31) && (star ==> f.wildcard && FullDay(f))
  }

  predicate WeekField(f: Field, star: bool) {
    f.values != {} && (forall w :: w in f.values ==> 0 <= w < 7) && (star ==> f.wildcard && FullWeek(f))
  }

  /** Flagged as a wildcard without being a bare star, as a stepped star is. */
  predicate Stepped(f: Field, star: bool) {
    f.wildcard && !star
  }

  /** Parsed day fields are such fields. */
  lemma ParsedDayFields(token: string)
    ensures var r := FieldOf(token, 1, 31, false);
            r.Ok? ==> DayField(r.value, token == "*") && (Stepped(r.value, token == "*") <==> !Standard(token))
    ensures var r := FieldOf(token, 0, 7, true);
            r.Ok? ==> WeekField(r.value, token == "*") && (Stepped(r.value, token == "*") <==> !Standard(token))
  {
    hide Denotes, Collected, Split, AllParse;
    FieldMeans(token, 1, 31, false);
    FieldMeans(token, 0, 7, true);
    forall v ensures Denotes("*", 1, 31, v) <==> 1 <= v <= 31 { StarIsAll(1, 31, v); }
    forall v ensures Denotes("*", 0, 7, v) <==> 0 <= v <= 7 { StarIsAll(0, 7, v); }
  }

  lemma Member<T>(s: set<T>) returns (x: T)
    requires s != {}
    ensures x in s
  {
    x :| x in s;
  }

  /** The rule agrees with the standard one on every day exactly when no day field is
      stepped, or the stepped fields happen to select enough. */
  lemma DayRuleAgreesExactly(day: Field, dayStar: bool, weekday: Field, weekdayStar: bool)
    requires DayField(day, dayStar) && WeekField(weekday, weekdayStar)
    ensures (forall d, w :: 1 <= d <= 31 && 0 <= w < 7 ==>
               (DayMatches(day, weekday, d, w) <==> StandardDay(day, dayStar, weekday, weekdayStar, d, w)))
            <==>
            (if Stepped(day, dayStar) && Stepped(weekday, weekdayStar) then FullDay(day) || FullWeek(weekday)
             else if Stepped(day, dayStar) then if weekdayStar then FullDay(day) else FullWeek(weekday)
             else if Stepped(weekday, weekdayStar) then if dayStar then FullWeek(weekday) else FullDay(day)
             else true)
  {
    if forall d, w :: 1 <= d <= 31 && 0 <= w < 7 ==>
         (DayMatches(day, weekday, d, w) <==> StandardDay(day, dayStar, weekday, weekdayStar, d, w)) {
      if Stepped(day, dayStar) && Stepped(weekday, weekdayStar) {
        if d :| 1 <= d <= 31 && d !in day.values {
          forall w | 0 <= w < 7 ensures w in weekday.values { assert DayMatches(day, weekday, d, w); }
        }
      } else if Stepped(day, dayStar) {
        if weekdayStar {
          forall d | 1 <= d <= 31 ensures d in day.values { assert DayMatches(day, weekday, d, 0); }
        } else {
          var d := Member(day.values);
          forall w | 0 <= w < 7 ensures w in weekday.values { assert DayMatches(day, weekday, d, w); }
        }
      } else if Stepped(weekday, weekdayStar) {
        if dayStar {
          forall w | 0 <= w < 7 ensures w in weekday.values { assert DayMatches(day, weekday, 1, w); }
        } else {
          var w := Member(weekday.values);
          forall d | 1 <= d <= 31 ensures d in day.values { assert DayMatches(day, weekday, d, w); }
        }
      }
    }
  }

  /** A stepped star in the day field is ignored: of an expression with day field
      star-slash-2 and weekday field star, the second of the month matches. */
  lemma SteppedDayIsIgnored()
    ensures FieldOf("*/2", 1, 31, false).Ok?
    ensures var f := FieldOf("*/2", 1, 31, false).value;
            2 !in f.values && forall weekday: Field, w: int :: weekday.wildcard ==> DayMatches(f, weekday, 2, w)
  {
    var token := "*/2";
    SplitWhole(token, ',');
    assert token == "*" + ['/'] + "2";
    PartitionSplits("*", '/', "2");
    assert "2"[..0] == "" && Number("2") == 2 && Digits("2");
    var span := Span(1, 31, 2);
    assert ParseItem(token, 1, 31) == Ok(span);
    FieldMeans(token, 1, 31, false);
    assert token in Split(token, ',');
    assert ItemSelects(token, 1, 31, 1);
    assert Denotes(token, 1, 31, 1);
    assert AllParse([token], 1, 31);
  }
}
