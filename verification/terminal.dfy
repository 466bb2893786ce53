/**
 * The two helpers of tsweb_py/utils/terminal.py that decide something: the
 * colour markup of a verdict and the bounded prompt for an index.
 */
module Terminal {
  import opened Wrappers
  import opened Text

  // ---------------------------------------------------------------------------
  // format_result_color

  datatype Colour = Green | Red | Magenta | Yellow

  /** The upper-cased verdicts each colour is given to. */
  function Verdicts(c: Colour): set<string> {
    match c
    case Green => {"OK", "AC"}
    case Red => {"WA", "RT", "RE"}
    case Magenta => {"TL", "ML", "TLE", "MLE"}
    case Yellow => {"NO", "JUDGING", "PENDING"}
  }

  /** The colour class of a verdict, whatever its case; `None` for any other text. */
  function ColourOf(result: string): (c: Option<Colour>)
    ensures c.Some? ==> Upper(result) in Verdicts(c.value)
    ensures c.None? <==> forall k: Colour :: Upper(result) !in Verdicts(k)
  {
    var u := Upper(result);
    if u in Verdicts(Green) then Some(Green)
    else if u in Verdicts(Red) then Some(Red)
    else if u in Verdicts(Magenta) then Some(Magenta)
    else if u in Verdicts(Yellow) then Some(Yellow)
    else None
  }

  /** The rich markup that opens and closes a colour. */
  function Open(c: Colour): string {
    match c
    case Green => "[green]"
    case Red => "[red]"
    case Magenta => "[magenta]"
    case Yellow => "[yellow]"
  }

  function Close(c: Colour): string {
    match c
    case Green => "[/green]"
    case Red => "[/red]"
    case Magenta => "[/magenta]"
    case Yellow => "[/yellow]"
  }

  function Paint(c: Colour, text: string): string {
    Open(c) + text + Close(c)
  }

  /**
   * `format_result_color`: the verdict, exactly as given, wrapped in the
   * markup of its colour class, or returned unchanged when it has none.
   */
  function FormatResultColor(result: string): (r: string)
    ensures ColourOf(result).Some? ==> r == Paint(ColourOf(result).value, result)
    ensures ColourOf(result).None? ==> r == result
    ensures result == "" ==> r == ""
  {
    var resultUpper := Upper(result);
    if resultUpper == "OK" || resultUpper == "AC" then "[green]" + result + "[/green]"
    else if resultUpper in ["WA", "RT", "RE"] then "[red]" + result + "[/red]"
    else if resultUpper in ["TL", "ML", "TLE", "MLE"] then "[magenta]" + result + "[/magenta]"
    else if resultUpper in ["NO", "JUDGING", "PENDING"] then "[yellow]" + result + "[/yellow]"
    else result
  }

  /** No verdict belongs to two colour classes, so the order of the tests does not matter. */
  lemma {:induction false} ColourClassesDisjoint(c1: Colour, c2: Colour, u: string)
    requires u in Verdicts(c1) && u in Verdicts(c2)
    ensures c1 == c2
  {
    match c1
    case Green =>
      assert u == "OK" || u == "AC";
    case Red =>
      assert u == "WA" || u == "RT" || u == "RE";
    case Magenta =>
      assert u == "TL" || u == "ML" || u == "TLE" || u == "MLE";
    case Yellow =>
      assert u == "NO" || u == "JUDGING" || u == "PENDING";
  }

  /**
   * Verdicts that differ only in case get the same colour, and each keeps its
   * own spelling inside the markup.
   */
  lemma {:induction false} ColourIgnoresCase(a: string, b: string)
    requires Upper(a) == Upper(b)
    ensures ColourOf(a) == ColourOf(b)
    ensures ColourOf(a).Some? ==>
              var t := |Open(ColourOf(a).value)|;
              FormatResultColor(a)[t..t + |a|] == a && FormatResultColor(b)[t..t + |b|] == b
  {
  }

  // ---------------------------------------------------------------------------
  // choose_index

  /** What one call of `input` yields: a line, or Ctrl-C. */
  datatype Attempt = Entered(line: string) | Interrupted

  /**
   * How `choose_index` ends: an index, `None` after Ctrl-C, `None` after too
   * many invalid attempts, or the `EOFError` of `input` escaping when the input
   * ends first.
   */
  datatype Choice = Chosen(index: nat) | Cancelled | TooManyAttempts | InputClosed

  /** What the caller receives. */
  function Returned(c: Choice): Option<nat> {
    if c.Chosen? then Some(c.index) else None
  }

  /** An index `int(line)` accepts and that is in range. */
  predicate Accepts(a: Attempt, count: nat) {
    a.Entered? && ParseInt(a.line).Some? && 0 <= ParseInt(a.line).value < count
  }

  /** An attempt that costs one try: a line that is not a number, or a number out of range. */
  predicate Rejected(a: Attempt, count: nat) {
    a.Entered? && !Accepts(a, count)
  }

  function Max0(n: int): nat {
    if n < 0 then 0 else n
  }

  /**
   * How `choose_index` ends when it has already read the first `k` answers,
   * each of them rejected: the attempt limit is checked first, then the
   * input, then the next answer.
   */
  function ChooseFrom(count: nat, attempts: seq<Attempt>, maxAttempts: int, k: nat): Choice
    requires k <= |attempts|
    decreases |attempts| - k
  {
    if k >= maxAttempts then TooManyAttempts
    else if k == |attempts| then InputClosed
    else if attempts[k].Interrupted? then Cancelled
    else if Accepts(attempts[k], count) then Chosen(ParseInt(attempts[k].line).value as nat)
    else ChooseFrom(count, attempts, maxAttempts, k + 1)
  }

  /** `choose_index(prompt, options, max_attempts)` with `count == len(options)`, answered by `attempts`. */
  function Choose(count: nat, attempts: seq<Attempt>, maxAttempts: int): Choice {
    ChooseFrom(count, attempts, maxAttempts, 0)
  }

  /**
   * The first answer that is a number in range is the one chosen, provided
   * the answers before it, from the `i`-th on, were all rejected and the
   * limit was not reached first.
   */
  lemma {:induction false} FirstAcceptedChosen(count: nat, attempts: seq<Attempt>, maxAttempts: int, i: nat, k: nat)
    requires i <= k < |attempts| && k < maxAttempts && Accepts(attempts[k], count)
    requires forall j :: i <= j < k ==> Rejected(attempts[j], count)
    ensures ChooseFrom(count, attempts, maxAttempts, i) == Chosen(ParseInt(attempts[k].line).value as nat)
    decreases k - i
  {
    if i < k {
      FirstAcceptedChosen(count, attempts, maxAttempts, i + 1, k);
    }
  }

  /**
   * `choose_index(prompt, options, max_attempts)` with `count == len(options)`,
   * reading its lines from `attempts`; `used` is how many were read.
   */
  method ChooseIndex(count: nat, attempts: seq<Attempt>, maxAttempts: int) returns (choice: Choice, used: nat)
    ensures choice == Choose(count, attempts, maxAttempts)
    ensures used <= |attempts| && used <= Max0(maxAttempts)
    ensures choice.Chosen? || choice.Cancelled? ==>
              used > 0 && forall k :: 0 <= k < used - 1 ==> Rejected(attempts[k], count)
    ensures choice.Chosen? ==>
              choice.index < count && Accepts(attempts[used - 1], count)
              && ParseInt(attempts[used - 1].line) == Some(choice.index as int)
    ensures choice.Cancelled? ==> attempts[used - 1] == Interrupted
    ensures choice.TooManyAttempts? || choice.InputClosed? ==>
              forall k :: 0 <= k < used ==> Rejected(attempts[k], count)
    ensures choice.TooManyAttempts? ==> used == Max0(maxAttempts)
    ensures choice.InputClosed? ==> used == |attempts| < Max0(maxAttempts)
  {
    used := 0;
    var tries := 0;
    while tries < maxAttempts
      invariant 0 <= tries == used <= Max0(maxAttempts) && used <= |attempts|
      invariant forall k :: 0 <= k < used ==> Rejected(attempts[k], count)
      invariant ChooseFrom(count, attempts, maxAttempts, used) == Choose(count, attempts, maxAttempts)
    {
      if used == |attempts| {
        return InputClosed, used;
      }
      var attempt := attempts[used];
      used := used + 1;
      if attempt.Interrupted? {
        return Cancelled, used;
      }
      var idx := ParseInt(attempt.line);
      if idx.Some? && 0 <= idx.value < count {
        return Chosen(idx.value), used;
      }
      tries := tries + 1;
    }
    return TooManyAttempts, used;
  }
}
