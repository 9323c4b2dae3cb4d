/** Parameter parsing of the web handler: `parse_float`, `parse_shifts`, and
    the resolution of empty text fields to defaults inside `remove_bg`.
    Python's `float()` is an abstract partial function `parse`: it yields a
    number for text it accepts and nothing (a `ValueError`) otherwise. */
module Params {
  import opened Common
  import opened Preconditioner

  type NumberParser = string -> Option<real>

  /** The defaults `remove_bg` writes out for an empty threshold or shift
      field. They are literals of their own in the handler, separate from
      the defaults `hook_ichol` declares. */
  const FORM_DEFAULT_THRESHOLD: real := 0.0001
  const FORM_DEFAULT_SHIFTS: seq<real> :=
    [0.0, 0.0001, 0.001, 0.01, 0.1, 0.5, 1.0, 10.0, 100.0, 1000.0, 10000.0, 100000.0]

  /** The default regularisation strength, 1e-7. */
  const DEFAULT_EPSILON: real := 0.0000001

  const THRESHOLD_TITLE: string := "Discard threshold"
  const EPSILON_TITLE: string := "Epsilon"

  /** Appended to a field title when its text is not a number. */
  const NOT_A_NUMBER: string := " 必须为数字或科学计数法表示的数字"

  /** The one message for any unparseable shift list. */
  const SHIFTS_ERROR: string := "Shifts 必须为逗号分隔的数字或科学计数法表示的数字"

  /** `parse_float(text, title)`: the parsed number, or an error whose
      message names the field first. */
  function ParseFloat(parse: NumberParser, text: string, title: string): (r: Result<real, string>)
    ensures parse(text).Some? ==> r == Success(parse(text).value)
    ensures parse(text).None? ==> r.Failure? && r.error == title + NOT_A_NUMBER
    ensures r.Failure? ==> title <= r.error
  {
    match parse(text)
    case Some(v) => Success(v)
    case None => Failure(title + NOT_A_NUMBER)
  }

  /** Number of occurrences of `c` in `s`. */
  function Occurrences(s: string, c: char): nat {
    if |s| == 0 then 0 else (if s[0] == c then 1 else 0) + Occurrences(s[1..], c)
  }

  /** The pieces glued back together with `sep` between neighbours. */
  function JoinWith(pieces: seq<string>, sep: char): string
    requires |pieces| > 0
  {
    if |pieces| == 1 then pieces[0] else pieces[0] + [sep] + JoinWith(pieces[1..], sep)
  }

  /** `str.split(sep)`: the maximal separator-free pieces, one more than
      there are separators (so "" gives one empty piece). */
  function SplitOn(s: string, sep: char): (pieces: seq<string>)
    ensures |pieces| == Occurrences(s, sep) + 1
    ensures forall i :: 0 <= i < |pieces| ==> sep !in pieces[i]
    decreases |s|
  {
    if |s| == 0 then [""]
    else
      var rest := SplitOn(s[1..], sep);
      if s[0] == sep then [""] + rest
      else [[s[0]] + rest[0]] + rest[1..]
  }

  /** Splitting and joining are inverse: joining the pieces gives the text
      back. */
  lemma {:induction false} JoinSplit(s: string, sep: char)
    ensures JoinWith(SplitOn(s, sep), sep) == s
    decreases |s|
  {
    if |s| > 0 {
      var rest := SplitOn(s[1..], sep);
      JoinSplit(s[1..], sep);
      if s[0] != sep {
        var pieces := SplitOn(s, sep);
        assert pieces == [[s[0]] + rest[0]] + rest[1..];
        if |rest| == 1 {
          assert JoinWith(pieces, sep) == [s[0]] + rest[0];
        } else {
          assert pieces[1..] == rest[1..];
          assert JoinWith(rest, sep) == rest[0] + [sep] + JoinWith(rest[1..], sep);
        }
        assert s == [s[0]] + s[1..];
      } else {
        assert s == [s[0]] + s[1..];
      }
    }
  }

  /** ... and splitting a join of separator-free pieces recovers exactly
      those pieces. */
  lemma {:induction false} SplitJoin(pieces: seq<string>, sep: char)
    requires |pieces| > 0 && forall i :: 0 <= i < |pieces| ==> sep !in pieces[i]
    ensures SplitOn(JoinWith(pieces, sep), sep) == pieces
    decreases |pieces|, |pieces[0]|
  {
    var p := pieces[0];
    if |p| > 0 {
      var tail := [p[1..]] + pieces[1..];
      assert tail[0] == p[1..];
      assert forall i :: 0 <= i < |tail| ==> sep !in tail[i] by {
        forall i | 0 <= i < |tail| ensures sep !in tail[i] {
          if i == 0 {
            assert forall c :: c in p[1..] ==> c in p;
          } else {
            assert tail[i] == pieces[i];
          }
        }
      }
      SplitJoin(tail, sep);
      var s := JoinWith(pieces, sep);
      assert tail[1..] == pieces[1..];
      if |pieces| == 1 {
        assert s == p;
        assert JoinWith(tail, sep) == p[1..];
      } else {
        assert JoinWith(tail, sep) == p[1..] + [sep] + JoinWith(pieces[1..], sep);
        assert s == p + [sep] + JoinWith(pieces[1..], sep);
      }
      assert s[0] == p[0] && s[0] != sep;
      assert s[1..] == JoinWith(tail, sep);
      assert SplitOn(s, sep) == [[p[0]] + tail[0]] + pieces[1..];
      assert [p[0]] + p[1..] == p;
    } else if |pieces| > 1 {
      SplitJoin(pieces[1..], sep);
      var s := JoinWith(pieces, sep);
      assert s == [sep] + JoinWith(pieces[1..], sep);
      assert s[1..] == JoinWith(pieces[1..], sep);
      assert pieces == [""] + pieces[1..];
    }
  }

  /** `parse_shifts`: one number per comma-separated piece, in order, or the
      single shifts error if any piece fails; no partial list. */
  function ParseShifts(parse: NumberParser, text: string): (r: Result<seq<real>, string>)
    ensures r.Success? <==>
      forall i :: 0 <= i < |SplitOn(text, ',')| ==> parse(SplitOn(text, ',')[i]).Some?
    ensures r.Success? ==>
      && |r.value| == Occurrences(text, ',') + 1
      && forall i :: 0 <= i < |r.value| ==> Some(r.value[i]) == parse(SplitOn(text, ',')[i])
    ensures r.Failure? ==> r.error == SHIFTS_ERROR
  {
    var parsePiece := (piece: string) =>
      match parse(piece) case Some(v) => Success(v) case None => Failure(());
    match MapAll(parsePiece, SplitOn(text, ','))
    case Success(values) => Success(values)
    case Failure(_) => Failure(SHIFTS_ERROR)
  }

  /** `parse_float(text, title) if text else default`: empty text takes the
      default without consulting the parser; any other text is parsed. */
  function ResolveNumber(parse: NumberParser, text: string, title: string, default: real)
    : (r: Result<real, string>)
    ensures text == "" ==> r == Success(default)
    ensures text != "" ==> (r.Success? <==> parse(text).Some?)
    ensures text != "" && r.Success? ==> Some(r.value) == parse(text)
    ensures r.Failure? ==> title <= r.error
  {
    if text != "" then ParseFloat(parse, text, title) else Success(default)
  }

  /** `parse_shifts(text) if text else [...]`. */
  function ResolveShifts(parse: NumberParser, text: string): (r: Result<seq<real>, string>)
    ensures text == "" ==> r == Success(FORM_DEFAULT_SHIFTS)
    ensures text != "" ==> r == ParseShifts(parse, text)
  {
    if text != "" then ParseShifts(parse, text) else Success(FORM_DEFAULT_SHIFTS)
  }

  /** The three numeric settings of one request. */
  datatype Settings = Settings(discardThreshold: real, epsilon: real, shifts: seq<real>)

  /** The three resolution lines of `remove_bg`, in source order: threshold,
      then epsilon, then shifts; the first failure is the one raised. */
  function ResolveSettings(parse: NumberParser, thresholdText: string, epsilonText: string,
                           shiftsText: string): (r: Result<Settings, string>)
    ensures var t := ResolveNumber(parse, thresholdText, THRESHOLD_TITLE, FORM_DEFAULT_THRESHOLD);
            var e := ResolveNumber(parse, epsilonText, EPSILON_TITLE, DEFAULT_EPSILON);
            var s := ResolveShifts(parse, shiftsText);
            && (r.Success? <==> t.Success? && e.Success? && s.Success?)
            && (r.Success? ==> r.value == Settings(t.value, e.value, s.value))
            && (t.Failure? ==> r == Failure(t.error))
            && (t.Success? && e.Failure? ==> r == Failure(e.error))
            && (t.Success? && e.Success? && s.Failure? ==> r == Failure(s.error))
  {
    var threshold :- ResolveNumber(parse, thresholdText, THRESHOLD_TITLE, FORM_DEFAULT_THRESHOLD);
    var epsilon :- ResolveNumber(parse, epsilonText, EPSILON_TITLE, DEFAULT_EPSILON);
    var shifts :- ResolveShifts(parse, shiftsText);
    Success(Settings(threshold, epsilon, shifts))
  }

  /** With every field left empty the request runs on the defaults:
      threshold 1e-4, epsilon 1e-7 and the twelve default shifts. */
  lemma EmptyFieldsUseDefaults(parse: NumberParser)
    ensures ResolveSettings(parse, "", "", "") ==
      Success(Settings(0.0001, 0.0000001, DefaultIchol().shifts))
  {
  }

  /** A list of shift texts written out with commas parses back, in order,
      to the numbers the parser gives for each text. */
  lemma ShiftsRoundTrip(parse: NumberParser, texts: seq<string>)
    requires |texts| > 0
    requires forall i :: 0 <= i < |texts| ==> ',' !in texts[i] && parse(texts[i]).Some?
    ensures ParseShifts(parse, JoinWith(texts, ',')).Success?
    ensures |ParseShifts(parse, JoinWith(texts, ',')).value| == |texts|
    ensures forall i :: 0 <= i < |texts| ==>
      Some(ParseShifts(parse, JoinWith(texts, ',')).value[i]) == parse(texts[i])
  {
    SplitJoin(texts, ',');
  }
}
