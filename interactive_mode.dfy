/** The console selection prompt of `interactive_mode.get_user_choice`: one line
    of input is normalised, split into an action letter and a number, and the
    number is checked against the result count; bad lines are answered with a
    new prompt. Printing is not modelled; reading a line is the next element of
    a sequence of input lines, and running out of lines is end of input. */
module InteractiveMode {
  import opened Outcomes
  import opened PyText

  /** What `get_user_choice` returns: `None`, `('back', None)`,
      `('play', song)` or `('download', song)`. */
  datatype UserChoice<T> = Quit | Back | Play(song: T) | Download(song: T)

  /** What one turn of the prompt loop makes of one input line. */
  datatype Step =
    | QuitStep                 // the line was 'q'
    | BackStep                 // the line was 'b'
    | PlayStep(index: nat)     // play results[index]
    | DownloadStep(index: nat) // download results[index]
    | InvalidAction            // a number in range with an action other than 'p' or 'd'
    | OutOfRange               // a number outside 1..len(results)
    | NotANumber               // int() raised ValueError
  {
    /** The outcomes after which the loop prompts again. */
    predicate IsRetry() {
      InvalidAction? || OutOfRange? || NotANumber?
    }
  }

  /** `input().strip().lower()`: no longer than the line, no whitespace at
      either end and no ASCII upper-case letter. */
  function Normalise(line: string): (r: string)
    ensures |r| <= |line|
    ensures r != [] ==> !IsSpace(r[0]) && !IsSpace(r[|r| - 1])
    ensures forall i :: 0 <= i < |r| ==> !('A' <= r[i] <= 'Z')
  {
    LowerAt(Strip(line));
    Lower(Strip(line))
  }

  /** Normalising twice is normalising once. */
  lemma NormaliseIdempotent(line: string)
    ensures Normalise(Normalise(line)) == Normalise(line)
  {
    NormaliseKeeps(Normalise(line));
  }

  /** The action letter and the number part of a normalised line: a line of
      two or more characters ending in 'p' or 'd' is split before its last
      character; any other line is a number to play. */
  function SplitAction(t: string): (r: (char, string))
    ensures r.0 == 'p' || r.0 == 'd'
    ensures r.1 + [r.0] == t <==> |t| > 1 && (t[|t| - 1] == 'p' || t[|t| - 1] == 'd')
    ensures r.1 + [r.0] != t ==> r.0 == 'p' && r.1 == t
  {
    if |t| > 1 && (t[|t| - 1] == 'p' || t[|t| - 1] == 'd') then
      assert t[..|t| - 1] + [t[|t| - 1]] == t;
      (t[|t| - 1], t[..|t| - 1])
    else
      ('p', t)
  }

  /** One turn of the loop on one line, for a result list of `count` entries. */
  function Classify(line: string, count: nat): (s: Step)
    ensures s.QuitStep? <==> Normalise(line) == "q"
    ensures s.BackStep? <==> Normalise(line) == "b"
    ensures !s.InvalidAction?
    ensures s.PlayStep? ==> s.index < count
    ensures s.DownloadStep? ==> s.index < count
    ensures s.PlayStep? || s.DownloadStep? ==>
              var n := ParseInt(SplitAction(Normalise(line)).1);
              n.Some? && n.value == s.index + 1
    ensures s.DownloadStep? ==> SplitAction(Normalise(line)).0 == 'd'
    ensures var t := Normalise(line); var sp := SplitAction(t); var n := ParseInt(sp.1);
            t != "q" && t != "b" ==>
              && (n.None? ==> s.NotANumber?)
              && (n.Some? && !(1 <= n.value <= count) ==> s.OutOfRange?)
              && (n.Some? && 1 <= n.value <= count ==>
                    (if sp.0 == 'd' then s.DownloadStep? else s.PlayStep?) && s.index == n.value - 1)
  {
    var t := Normalise(line);
    if t == "q" then QuitStep
    else if t == "b" then BackStep
    else
      var split := SplitAction(t);
      var number := ParseInt(split.1);
      if number.None? then NotANumber
      else if 1 <= number.value <= count then
        if split.0 == 'p' then PlayStep(number.value - 1)
        else if split.0 == 'd' then DownloadStep(number.value - 1)
        else InvalidAction
      else
        OutOfRange
  }

  /** The value `get_user_choice` returns for a line that ends the loop. */
  function Decide<T>(results: seq<T>, s: Step): (c: UserChoice<T>)
    requires !s.IsRetry()
    requires s.PlayStep? || s.DownloadStep? ==> s.index < |results|
    ensures c.Quit? <==> s.QuitStep?
    ensures c.Back? <==> s.BackStep?
    ensures c.Play? <==> s.PlayStep?
    ensures c.Download? <==> s.DownloadStep?
    ensures c.Play? || c.Download? ==> c.song == results[s.index]
  {
    match s
    case QuitStep => Quit
    case BackStep => Back
    case PlayStep(i) => Play(results[i])
    case DownloadStep(i) => Download(results[i])
  }

  /** Every line classified, in order, for a result list of `count` entries. */
  function ClassifyAll(inputs: seq<string>, count: nat): (steps: seq<Step>)
    ensures |steps| == |inputs|
    ensures forall j :: 0 <= j < |inputs| ==> steps[j] == Classify(inputs[j], count)
  {
    seq(|inputs|, j requires 0 <= j < |inputs| => Classify(inputs[j], count))
  }

  /** Steps whose selections all name one of `count` results, as
      `Classify` guarantees. */
  predicate InRange(steps: seq<Step>, count: nat) {
    forall j :: 0 <= j < |steps| ==>
      (steps[j].PlayStep? || steps[j].DownloadStep?) ==> steps[j].index < count
  }

  /** The whole prompt loop, including the early return for an empty result
      list, as a fold over the classified lines: the choice made and how many
      lines were read. End of input makes `input()` raise, which the loop's
      catch-all turns into `None`. */
  function Choose<T>(results: seq<T>, steps: seq<Step>): (r: (UserChoice<T>, nat))
    requires InRange(steps, |results|)
    ensures |results| == 0 ==> r.0 == Quit && r.1 == 0
    ensures r.1 <= |steps|
    ensures r.0.Play? ==> r.0.song in results
    ensures r.0.Download? ==> r.0.song in results
    decreases |steps|
  {
    if |results| == 0 || steps == [] then (Quit, 0)
    else if steps[0].IsRetry() then
      var rest := Choose(results, steps[1..]);
      (rest.0, rest.1 + 1)
    else
      (Decide(results, steps[0]), 1)
  }

  /** `get_user_choice(results)` reading its lines from `inputs`. */
  method GetUserChoice<T>(results: seq<T>, inputs: seq<string>)
    returns (choice: UserChoice<T>, consumed: nat)
    ensures InRange(ClassifyAll(inputs, |results|), |results|)
    ensures choice == Choose(results, ClassifyAll(inputs, |results|)).0
    ensures consumed == Choose(results, ClassifyAll(inputs, |results|)).1
  {
    ghost var steps := ClassifyAll(inputs, |results|);
    assert InRange(steps, |results|);
    if |results| == 0 {
      return Quit, 0;
    }
    var i := 0;
    while i < |inputs|
      invariant 0 <= i <= |inputs|
      invariant Choose(results, steps).0 == Choose(results, steps[i..]).0
      invariant Choose(results, steps).1 == Choose(results, steps[i..]).1 + i
    {
      var s := Classify(inputs[i], |results|);
      assert s == steps[i..][0];
      if !s.IsRetry() {
        return Decide(results, s), i + 1;
      }
      assert steps[i..][1..] == steps[i + 1..];
      i := i + 1;
    }
    return Quit, |inputs|;
  }

  /** The loop ends at the first line that is not answered with a new prompt,
      and its answer is that line's. */
  lemma {:induction false} ChooseStopsAtFirstDecision<T>(results: seq<T>, steps: seq<Step>, k: nat)
    requires InRange(steps, |results|)
    requires |results| > 0 && k < |steps|
    requires forall j :: 0 <= j < k ==> steps[j].IsRetry()
    requires !steps[k].IsRetry()
    ensures Choose(results, steps).0 == Decide(results, steps[k])
    ensures Choose(results, steps).1 == k + 1
  {
    if k > 0 {
      assert steps[0].IsRetry();
      assert forall j :: 0 <= j < |steps| - 1 ==> steps[1..][j] == steps[j + 1];
      ChooseStopsAtFirstDecision(results, steps[1..], k - 1);
    }
  }

  /** When every line is answered with a new prompt, the loop reads them all and
      end of input quits. */
  lemma {:induction false} ChooseAtEndOfInput<T>(results: seq<T>, steps: seq<Step>)
    requires InRange(steps, |results|)
    requires forall j :: 0 <= j < |steps| ==> steps[j].IsRetry()
    ensures Choose(results, steps).0 == Quit
    ensures Choose(results, steps).1 == if |results| == 0 then 0 else |steps|
  {
    if |results| > 0 && steps != [] {
      assert steps[0].IsRetry();
      assert forall j :: 0 <= j < |steps| - 1 ==> steps[1..][j] == steps[j + 1];
      ChooseAtEndOfInput(results, steps[1..]);
    }
  }

  /** 'q', 'Q', 'b' or 'B' with whitespace around it quits or goes back. */
  lemma ClassifyQuitBack(pre: string, c: char, post: string, count: nat)
    requires AllSpace(pre) && AllSpace(post)
    requires c == 'q' || c == 'Q' || c == 'b' || c == 'B'
    ensures Classify(pre + [c] + post, count) == if c == 'q' || c == 'Q' then QuitStep else BackStep
  {
    StripPadded(pre, [c], post);
    assert Lower([c]) == [LowerChar(c)];
  }

  /** A line of digits, optionally followed by 'p' or 'd', selects result
      number n (counting from 1) when 1 <= n <= count, and asks again when not. */
  lemma ClassifyNumbered(ds: string, suffix: string, count: nat)
    requires |ds| > 0 && AllDigits(ds)
    requires suffix == "" || suffix == "p" || suffix == "d"
    ensures var s, n := Classify(ds + suffix, count), DecimalValue(ds);
            && (1 <= n <= count ==>
                  (if suffix == "d" then s.DownloadStep? else s.PlayStep?) && s.index == n - 1)
            && (!(1 <= n <= count) ==> s.OutOfRange?)
  {
    var line := ds + suffix;
    NumberedIsNormal(ds, suffix);
    SplitNumbered(ds, suffix);
    ParseIntDigits(ds);
    ClassifyParts(line, ds, suffix == "d", DecimalValue(ds), count);
  }

  /** `int()` ignores whitespace, so digits followed by " p" or " d", as in
      "3 p", select like "3p" and "3d". */
  lemma ClassifySpacedAction(ds: string, suffix: string, count: nat)
    requires |ds| > 0 && AllDigits(ds)
    requires suffix == " p" || suffix == " d"
    ensures var s, n := Classify(ds + suffix, count), DecimalValue(ds);
            && (1 <= n <= count ==>
                  (if suffix == " d" then s.DownloadStep? else s.PlayStep?) && s.index == n - 1)
            && (!(1 <= n <= count) ==> s.OutOfRange?)
  {
    var line := ds + suffix;
    SpacedIsNormal(ds, suffix);
    SplitSpaced(ds, suffix);
    ClassifyParts(line, SplitAction(line).1, suffix == " d", DecimalValue(ds), count);
  }

  lemma SpacedIsNormal(ds: string, suffix: string)
    requires |ds| > 0 && AllDigits(ds)
    requires suffix == " p" || suffix == " d"
    ensures Normalise(ds + suffix) == ds + suffix
    ensures ds + suffix != "q" && ds + suffix != "b"
  {
    var line := ds + suffix;
    assert line[0] == ds[0];
    assert line[|line| - 1] == suffix[1];
    assert forall i :: 0 <= i < |line| ==> !('A' <= line[i] <= 'Z') by {
      forall i | 0 <= i < |line| ensures !('A' <= line[i] <= 'Z') {
        if i >= |ds| { assert line[i] == suffix[i - |ds|]; }
      }
    }
    NormaliseKeeps(line);
  }

  lemma SplitSpaced(ds: string, suffix: string)
    requires |ds| > 0
    requires suffix == " p" || suffix == " d"
    requires AllDigits(ds)
    ensures ParseInt(SplitAction(ds + suffix).1).Some?
    ensures ParseInt(SplitAction(ds + suffix).1).value == DecimalValue(ds)
    ensures SplitAction(ds + suffix).0 == 'd' <==> suffix == " d"
  {
    var line := ds + suffix;
    assert line[..|line| - 1] == ds + " ";
    ParseIntTrailingSpace(ds, " ");
  }

  /** How a normal line other than 'q' and 'b' is classified from its action
      letter and its number. */
  lemma ClassifyParts(line: string, num: string, download: bool, n: int, count: nat)
    requires Normalise(line) == line && line != "q" && line != "b"
    requires SplitAction(line).1 == num && (SplitAction(line).0 == 'd' <==> download)
    requires ParseInt(num).Some? && ParseInt(num).value == n
    ensures var s := Classify(line, count);
            && (1 <= n <= count ==>
                  (if download then s.DownloadStep? else s.PlayStep?) && s.index == n - 1)
            && (!(1 <= n <= count) ==> s.OutOfRange?)
  {
  }

  /** A line with no whitespace at its ends and no upper-case letters is
      already normal. */
  lemma NormaliseKeeps(line: string)
    requires line == [] || (!IsSpace(line[0]) && !IsSpace(line[|line| - 1]))
    requires forall i :: 0 <= i < |line| ==> !('A' <= line[i] <= 'Z')
    ensures Normalise(line) == line
  {
    StripUnpadded(line);
    LowerKeeps(line);
  }

  lemma NumberedIsNormal(ds: string, suffix: string)
    requires |ds| > 0 && AllDigits(ds)
    requires suffix == "" || suffix == "p" || suffix == "d"
    ensures Normalise(ds + suffix) == ds + suffix
    ensures ds + suffix != "q" && ds + suffix != "b"
  {
    var line := ds + suffix;
    assert line[0] == ds[0];
    assert line[|line| - 1] == if suffix == "" then ds[|ds| - 1] else suffix[0];
    assert forall i :: 0 <= i < |line| ==> IsDigit(line[i]) || line[i] == 'p' || line[i] == 'd' by {
      forall i | 0 <= i < |line| ensures IsDigit(line[i]) || line[i] == 'p' || line[i] == 'd' {
        if i >= |ds| { assert line[i] == suffix[i - |ds|]; }
      }
    }
    NormaliseKeeps(line);
  }

  lemma SplitNumbered(ds: string, suffix: string)
    requires |ds| > 0 && AllDigits(ds)
    requires suffix == "" || suffix == "p" || suffix == "d"
    ensures SplitAction(ds + suffix).1 == ds
    ensures SplitAction(ds + suffix).0 == if suffix == "d" then 'd' else 'p'
  {
    var line := ds + suffix;
    if suffix == "" {
      assert line == ds;
      assert !(line[|line| - 1] == 'p' || line[|line| - 1] == 'd');
    } else {
      assert line[..|line| - 1] == ds;
    }
  }

  /** A lone 'p' or 'd' is not split off, so its number part fails to parse. */
  lemma ClassifyLoneAction(c: char, count: nat)
    requires c == 'p' || c == 'd'
    ensures Classify([c], count).NotANumber?
  {
    NormaliseKeeps([c]);
    ParseIntLoneChar(c);
    ClassifyUnparsed([c], count);
  }

  /** An information separator (U+001C..U+001F) inside the number part:
      `strip()` leaves it there, and `int()` rejects it although `strip()` would
      count it as whitespace, so "3\x1cp" asks again. */
  lemma ClassifySeparatorInNumber(ds: string, c: char, count: nat)
    requires |ds| > 0 && AllDigits(ds) && IsInfoSeparator(c)
    ensures Classify(ds + [c] + "p", count).NotANumber?
  {
    var line := ds + [c] + "p";
    assert line[0] == ds[0] && line[|line| - 1] == 'p';
    assert forall i :: 0 <= i < |line| ==> !('A' <= line[i] <= 'Z') by {
      forall i | 0 <= i < |line| ensures !('A' <= line[i] <= 'Z') {
        if i < |ds| { assert line[i] == ds[i]; }
      }
    }
    NormaliseKeeps(line);
    var num := line[..|line| - 1];
    assert num == ds + [c] && num[|ds|] == c;
    assert SplitAction(line).1 == num;
    ClassifyUnparsed(line, count);
  }

  /** A normal line other than 'q' and 'b' whose number part `int()` rejects
      asks again. */
  lemma ClassifyUnparsed(line: string, count: nat)
    requires Normalise(line) == line && line != "q" && line != "b"
    requires ParseInt(SplitAction(line).1).None?
    ensures Classify(line, count).NotANumber?
  {
  }
}
