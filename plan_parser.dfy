/**
 * The plan-text parser of the ReWOO agent: `re.findall` with the pattern
 *
 *     Plan:\s*(.+)\s*(#E\d+)\s*=\s*(\w+)\s*\[([^\]]+)\]
 *
 * written out as a scanner that tries the alternatives in the order Python's
 * backtracking regex engine tries them. `.` does not match a newline, `\s`
 * does; group 1 is greedy, so it keeps any whitespace before `#E`.
 */
module PlanParser {
  import opened Wrappers
  import opened Strings

  /** One parsed step: the four groups of the pattern. */
  datatype Step = Step(description: string, variable: string, tool: string, input: string)

  predicate IsDigit(c: char) {
    '0' <= c <= '9'
  }

  /** `\w` restricted to ASCII. */
  predicate IsWordChar(c: char) {
    ('a' <= c <= 'z') || ('A' <= c <= 'Z') || IsDigit(c) || c == '_'
  }

  /** `#E` followed by one or more digits. */
  predicate IsVariable(v: string) {
    |v| >= 3 && v[0] == '#' && v[1] == 'E' && forall i :: 2 <= i < |v| ==> IsDigit(v[i])
  }

  predicate IsToolName(t: string) {
    |t| >= 1 && forall i :: 0 <= i < |t| ==> IsWordChar(t[i])
  }

  /** What `[^\]]+` captures: at least one character, none of them `]`. */
  predicate IsInput(x: string) {
    |x| >= 1 && forall i :: 0 <= i < |x| ==> x[i] != ']'
  }

  /** What `.+` captures: at least one character, no newline. */
  predicate IsDescription(d: string) {
    |d| >= 1 && forall i :: 0 <= i < |d| ==> d[i] != '\n'
  }

  predicate WellFormed(st: Step) {
    IsDescription(st.description) && IsVariable(st.variable) && IsToolName(st.tool) && IsInput(st.input)
  }


  /**
   * A step the parser reads back unchanged from the solver's listing: well
   * formed, with a description that does not start with a blank (`Plan:\s*`
   * would take that blank).
   */
  predicate Writable(st: Step) {
    WellFormed(st) && !IsSpace(st.description[0])
  }

  /** The character classes the pattern repeats. */
  datatype CharClass = Space | Digit | Word | NotNewline | NotCloseBracket

  predicate InClass(c: char, k: CharClass) {
    match k
    case Space => IsSpace(c)
    case Digit => IsDigit(c)
    case Word => IsWordChar(c)
    case NotNewline => c != '\n'
    case NotCloseBracket => c != ']'
  }

  /** Every character of `s[i..j]` belongs to the class. */
  predicate AllIn(s: string, i: nat, j: nat, k: CharClass)
    requires i <= j <= |s|
  {
    forall m {:trigger InClass(s[m], k)} :: i <= m < j ==> InClass(s[m], k)
  }

  /** End of the longest run of `k` characters from `i`: what a greedy repetition consumes first. */
  function Skip(s: string, i: nat, k: CharClass): (j: nat)
    requires i <= |s|
    ensures i <= j <= |s|
    ensures j == |s| || !InClass(s[j], k)
    decreases |s| - i
  {
    if i < |s| && InClass(s[i], k) then Skip(s, i + 1, k) else i
  }

  /** Every character of the run belongs to the class. */
  lemma {:induction false} SkipRun(s: string, i: nat, k: CharClass)
    requires i <= |s|
    ensures AllIn(s, i, Skip(s, i, k), k)
    decreases |s| - i
  {
    if i < |s| && InClass(s[i], k) {
      SkipRun(s, i + 1, k);
    }
  }

  /** A run that reaches `j` exactly: every character before `j` is in the class and the one at `j` is not. */
  lemma {:induction false} SkipTo(s: string, i: nat, j: nat, k: CharClass)
    requires i <= j <= |s| && AllIn(s, i, j, k)
    requires j == |s| || !InClass(s[j], k)
    ensures Skip(s, i, k) == j
    decreases j - i
  {
    if i < j {
      SkipTo(s, i + 1, j, k);
    }
  }

  /**
   * Where the part of the pattern after the description lies: `#E` at
   * `hash`, group 2 in `s[hash..digitsEnd]`, `=` at `equals`, group 3 in
   * `s[toolStart..toolEnd]`, `[` at `bracket`, group 4 in
   * `s[bracket + 1..close]` and `]` at `close`.
   */
  datatype Tail = Tail(hash: nat, digitsEnd: nat, equals: nat, toolStart: nat, toolEnd: nat, bracket: nat, close: nat)

  /** The positions of a tail looked for from `e` come in order inside `s`. */
  predicate InOrder(s: string, e: nat, t: Tail) {
    e <= t.hash && t.hash + 2 < t.digitsEnd <= t.equals < t.toolStart < t.toolEnd <= t.bracket
    && t.bracket + 1 < t.close < |s|
  }

  /** `\s*(#E\d+)\s*=\s*(\w+)\s*\[([^\]]+)\]` matches `s[e..t.close + 1]` with its pieces where `t` puts them. */
  predicate TailSpans(s: string, e: nat, t: Tail) {
    InOrder(s, e, t)
    && AllIn(s, e, t.hash, Space) && s[t.hash] == '#' && s[t.hash + 1] == 'E'
    && AllIn(s, t.hash + 2, t.digitsEnd, Digit)
    && AllIn(s, t.digitsEnd, t.equals, Space) && s[t.equals] == '='
    && AllIn(s, t.equals + 1, t.toolStart, Space)
    && AllIn(s, t.toolStart, t.toolEnd, Word)
    && AllIn(s, t.toolEnd, t.bracket, Space) && s[t.bracket] == '['
    && AllIn(s, t.bracket + 1, t.close, NotCloseBracket) && s[t.close] == ']'
  }

  /**
   * The part of the pattern after the description, tried at `e`. Each
   * repetition takes its longest run; giving characters back would not help,
   * because every run stops at a character the next piece cannot start with.
   */
  function MatchTail(s: string, e: nat): (t: Option<Tail>)
    requires e <= |s|
    ensures t.Some? ==> InOrder(s, e, t.value)
  {
    var a := Skip(s, e, Space);
    if !(a + 2 <= |s| && s[a] == '#' && s[a + 1] == 'E') then None
    else
      var b := Skip(s, a + 2, Digit);
      var c := Skip(s, b, Space);
      if b == a + 2 || !(c < |s| && s[c] == '=') then None
      else
        var d := Skip(s, c + 1, Space);
        var f := Skip(s, d, Word);
        var g := Skip(s, f, Space);
        if f == d || !(g < |s| && s[g] == '[') then None
        else
          var h := Skip(s, g + 1, NotCloseBracket);
          if h == g + 1 || h == |s| then None else Some(Tail(a, b, c, d, f, g, h))
  }

  /** What `MatchTail` finds is a match of the tail pattern. */
  lemma MatchTailSound(s: string, e: nat)
    requires e <= |s| && MatchTail(s, e).Some?
    ensures TailSpans(s, e, MatchTail(s, e).value)
  {
    var t := MatchTail(s, e).value;
    assert Skip(s, e, Space) == t.hash && Skip(s, t.hash + 2, Digit) == t.digitsEnd;
    assert Skip(s, t.digitsEnd, Space) == t.equals && Skip(s, t.equals + 1, Space) == t.toolStart;
    assert Skip(s, t.toolStart, Word) == t.toolEnd && Skip(s, t.toolEnd, Space) == t.bracket;
    assert Skip(s, t.bracket + 1, NotCloseBracket) == t.close;
    SpansOfRuns(s, e, t);
  }

  /** Runs that end where `t` says, with the literal characters in between, are a match of the tail pattern. */
  lemma SpansOfRuns(s: string, e: nat, t: Tail)
    requires e <= |s| && InOrder(s, e, t)
    requires Skip(s, e, Space) == t.hash && s[t.hash] == '#' && s[t.hash + 1] == 'E'
    requires Skip(s, t.hash + 2, Digit) == t.digitsEnd && Skip(s, t.digitsEnd, Space) == t.equals && s[t.equals] == '='
    requires Skip(s, t.equals + 1, Space) == t.toolStart && Skip(s, t.toolStart, Word) == t.toolEnd
    requires Skip(s, t.toolEnd, Space) == t.bracket && s[t.bracket] == '['
    requires Skip(s, t.bracket + 1, NotCloseBracket) == t.close && s[t.close] == ']'
    ensures TailSpans(s, e, t)
  {
    SkipRun(s, e, Space);
    SkipRun(s, t.hash + 2, Digit);
    SkipRun(s, t.digitsEnd, Space);
    SkipRun(s, t.equals + 1, Space);
    SkipRun(s, t.toolStart, Word);
    SkipRun(s, t.toolEnd, Space);
    SkipRun(s, t.bracket + 1, NotCloseBracket);
  }

  /** Any match of the tail pattern from `e` is the one `MatchTail` finds: the tail match is unique. */
  lemma MatchTailComplete(s: string, e: nat, t: Tail)
    requires e <= |s| && TailSpans(s, e, t)
    ensures MatchTail(s, e) == Some(t)
  {
    RunsOfSpans(s, e, t);
    MatchTailOfRuns(s, e, t);
  }

  /** In a match of the tail pattern, each run is the longest one from where it starts. */
  lemma RunsOfSpans(s: string, e: nat, t: Tail)
    requires e <= |s| && TailSpans(s, e, t)
    ensures Skip(s, e, Space) == t.hash && Skip(s, t.hash + 2, Digit) == t.digitsEnd
    ensures Skip(s, t.digitsEnd, Space) == t.equals && Skip(s, t.equals + 1, Space) == t.toolStart
    ensures Skip(s, t.toolStart, Word) == t.toolEnd && Skip(s, t.toolEnd, Space) == t.bracket
    ensures Skip(s, t.bracket + 1, NotCloseBracket) == t.close
  {
    HeadRuns(s, e, t);
    CallRuns(s, e, t);
  }

  /** The runs up to `=` in a match of the tail pattern. */
  lemma HeadRuns(s: string, e: nat, t: Tail)
    requires e <= |s| && TailSpans(s, e, t)
    ensures Skip(s, e, Space) == t.hash && Skip(s, t.hash + 2, Digit) == t.digitsEnd
    ensures Skip(s, t.digitsEnd, Space) == t.equals
  {
    assert t.digitsEnd < t.equals ==> InClass(s[t.digitsEnd], Space);
    SkipTo(s, e, t.hash, Space);
    SkipTo(s, t.hash + 2, t.digitsEnd, Digit);
    SkipTo(s, t.digitsEnd, t.equals, Space);
  }

  /** The runs after `=` in a match of the tail pattern. */
  lemma CallRuns(s: string, e: nat, t: Tail)
    requires e <= |s| && TailSpans(s, e, t)
    ensures Skip(s, t.equals + 1, Space) == t.toolStart
    ensures Skip(s, t.toolStart, Word) == t.toolEnd && Skip(s, t.toolEnd, Space) == t.bracket
    ensures Skip(s, t.bracket + 1, NotCloseBracket) == t.close
  {
    assert InClass(s[t.toolStart], Word);
    assert t.toolEnd < t.bracket ==> InClass(s[t.toolEnd], Space);
    SkipTo(s, t.equals + 1, t.toolStart, Space);
    SkipTo(s, t.toolStart, t.toolEnd, Word);
    SkipTo(s, t.toolEnd, t.bracket, Space);
    SkipTo(s, t.bracket + 1, t.close, NotCloseBracket);
  }

  /** `MatchTail` finds `t` when each run it takes ends where `t` says. */
  lemma MatchTailOfRuns(s: string, e: nat, t: Tail)
    requires e <= |s| && InOrder(s, e, t)
    requires Skip(s, e, Space) == t.hash && s[t.hash] == '#' && s[t.hash + 1] == 'E'
    requires Skip(s, t.hash + 2, Digit) == t.digitsEnd && Skip(s, t.digitsEnd, Space) == t.equals && s[t.equals] == '='
    requires Skip(s, t.equals + 1, Space) == t.toolStart && Skip(s, t.toolStart, Word) == t.toolEnd
    requires Skip(s, t.toolEnd, Space) == t.bracket && s[t.bracket] == '['
    requires Skip(s, t.bracket + 1, NotCloseBracket) == t.close
    ensures MatchTail(s, e) == Some(t)
  {
  }

  /** No `#E` from `x` on leaves the tail nothing to start with. */
  lemma NoMarkNoTail(s: string, x: nat)
    requires x <= |s|
    requires forall m :: x <= m < |s| && s[m] == '#' ==> m + 1 < |s| && s[m + 1] != 'E'
    ensures forall t :: !TailSpans(s, x, t)
  {
  }

  /** `MatchTail` at the positions before `n`. */
  function TailsUpTo(s: string, n: nat): (tails: seq<Option<Tail>>)
    requires n <= |s| + 1
    ensures |tails| == n && forall e :: 0 <= e < n && tails[e].Some? ==> InOrder(s, e, tails[e].value)
  {
    if n == 0 then [] else TailsUpTo(s, n - 1) + [MatchTail(s, n - 1)]
  }

  /** `MatchTail` at every position of `s`, computed once for all the descriptions tried. */
  function Tails(s: string): (tails: seq<Option<Tail>>)
    ensures TailTable(s, tails)
  {
    TailsUpTo(s, |s| + 1)
  }

  lemma {:induction false} TailsUpToAt(s: string, n: nat, e: nat)
    requires e < n <= |s| + 1
    ensures TailsUpTo(s, n)[e] == MatchTail(s, e)
    decreases n
  {
    if e < n - 1 {
      TailsUpToAt(s, n - 1, e);
    }
  }

  /** The table holds `MatchTail` at each position. */
  lemma TailsAt(s: string, e: nat)
    requires e <= |s|
    ensures Tails(s)[e] == MatchTail(s, e)
  {
    TailsUpToAt(s, |s| + 1, e);
  }

  /** A table with an entry per position whose tails lie in order after their position. */
  predicate TailTable(s: string, tails: seq<Option<Tail>>) {
    |tails| == |s| + 1 && forall e :: 0 <= e < |tails| && tails[e].Some? ==> InOrder(s, e, tails[e].value)
  }

  /** No match of the tail pattern starts in `(i, j]`. */
  ghost predicate NoTailIn(s: string, i: nat, j: nat)
    requires j <= |s|
  {
    forall x, t :: i < x <= j ==> !TailSpans(s, x, t)
  }

  /** A match of the tail pattern is in the table. */
  lemma TableHas(s: string, e: nat, t: Tail)
    requires e <= |s| && TailSpans(s, e, t)
    ensures Tails(s)[e] == Some(t)
  {
    TailsAt(s, e);
    MatchTailComplete(s, e, t);
  }

  /** What the table holds is a match of the tail pattern, and an empty entry means there is none. */
  lemma TableSound(s: string, e: nat)
    requires e <= |s|
    ensures Tails(s)[e].Some? ==> TailSpans(s, e, Tails(s)[e].value)
    ensures Tails(s)[e].None? ==> forall t :: !TailSpans(s, e, t)
  {
    TailsAt(s, e);
    if MatchTail(s, e).Some? {
      MatchTailSound(s, e);
    }
    forall t | TailSpans(s, e, t) ensures Tails(s)[e].Some? {
      MatchTailComplete(s, e, t);
    }
  }

  /**
   * Greedy `(.+)` from `st`: the description `s[st..e]`, then shorter ones,
   * down to one character, until one is followed by a tail. The result is
   * where that description ends.
   */
  function TryEnd(s: string, tails: seq<Option<Tail>>, st: nat, e: nat): (n: Option<nat>)
    requires TailTable(s, tails) && st <= |s| && st <= e <= Skip(s, st, NotNewline)
    ensures n.Some? ==> st < n.value <= e && tails[n.value].Some?
    decreases e
  {
    if e == st then None
    else if tails[e].Some? then Some(e)
    else TryEnd(s, tails, st, e - 1)
  }

  /** The description `TryEnd` finds is the longest one followed by a tail, and when it finds none there is none. */
  lemma {:induction false} TryEndIsLast(s: string, tails: seq<Option<Tail>>, st: nat, e: nat)
    requires TailTable(s, tails) && st <= |s| && st <= e <= Skip(s, st, NotNewline)
    ensures TryEnd(s, tails, st, e).Some? ==> forall x :: TryEnd(s, tails, st, e).value < x <= e ==> tails[x].None?
    ensures TryEnd(s, tails, st, e).None? ==> forall x :: st < x <= e ==> tails[x].None?
    decreases e
  {
    if e > st && tails[e].None? {
      TryEndIsLast(s, tails, st, e - 1);
    }
  }

  /** The last end followed by a tail is the one `TryEnd` finds. */
  lemma TryEndAt(s: string, tails: seq<Option<Tail>>, st: nat, e: nat, n: nat)
    requires TailTable(s, tails) && st <= |s| && st < n <= e <= Skip(s, st, NotNewline)
    requires tails[n].Some? && forall x :: n < x <= e ==> tails[x].None?
    ensures TryEnd(s, tails, st, e) == Some(n)
  {
    TryEndIsLast(s, tails, st, e);
  }

  /**
   * Greedy `\s*` after `Plan:`: the description starts after all `w` blanks
   * from `q`, then after fewer, until a description fits. The result is
   * where the description starts and ends.
   */
  function TryWhitespace(s: string, tails: seq<Option<Tail>>, q: nat, w: nat): (r: Option<(nat, nat)>)
    requires TailTable(s, tails) && q + w <= |s|
    ensures r.Some? ==> q <= r.value.0 <= q + w && r.value.0 < r.value.1 <= Skip(s, r.value.0, NotNewline)
    ensures r.Some? ==> tails[r.value.1].Some?
    decreases w
  {
    var st := q + w;
    match TryEnd(s, tails, st, Skip(s, st, NotNewline))
    case Some(n) => Some((st, n))
    case None => if w == 0 then None else TryWhitespace(s, tails, q, w - 1)
  }

  /** `TryWhitespace` keeps the longest run of blanks a description fits after, and reports none when none fits. */
  lemma {:induction false} TryWhitespaceIsLast(s: string, tails: seq<Option<Tail>>, q: nat, w: nat)
    requires TailTable(s, tails) && q + w <= |s|
    ensures var r := TryWhitespace(s, tails, q, w);
      r.Some? ==> TryEnd(s, tails, r.value.0, Skip(s, r.value.0, NotNewline)) == Some(r.value.1)
    ensures var r := TryWhitespace(s, tails, q, w);
      r.Some? ==> forall v :: r.value.0 < v <= q + w ==> TryEnd(s, tails, v, Skip(s, v, NotNewline)).None?
    ensures TryWhitespace(s, tails, q, w).None? ==> forall v :: q <= v <= q + w ==> TryEnd(s, tails, v, Skip(s, v, NotNewline)).None?
    decreases w
  {
    if TryEnd(s, tails, q + w, Skip(s, q + w, NotNewline)).None? && w > 0 {
      TryWhitespaceIsLast(s, tails, q, w - 1);
    }
  }

  /**
   * One match of the whole pattern: where it starts and ends, where group 1
   * lies (`s[descStart..descEnd]`) and where the rest of the pattern lies.
   */
  datatype Match = Match(start: nat, end: nat, descStart: nat, descEnd: nat, tail: Tail)

  /** The pieces of a match lie in order inside `s`. */
  predicate Placed(s: string, m: Match) {
    m.descStart <= m.descEnd && InOrder(s, m.descEnd, m.tail)
  }

  /** The four groups of a match, cut out of `s`. */
  function StepOf(s: string, m: Match): Step
    requires Placed(s, m)
  {
    Step(s[m.descStart..m.descEnd], s[m.tail.hash..m.tail.digitsEnd], s[m.tail.toolStart..m.tail.toolEnd], s[m.tail.bracket + 1..m.tail.close])
  }

  /** The pattern matches `s[m.start..m.end]` with its pieces where `m` puts them. */
  predicate MatchSpans(s: string, m: Match) {
    PlanAt(s, m.start)
    && m.start + 5 <= m.descStart < m.descEnd
    && TailSpans(s, m.descEnd, m.tail)
    && AllIn(s, m.start + 5, m.descStart, Space)
    && AllIn(s, m.descStart, m.descEnd, NotNewline)
    && m.end == m.tail.close + 1
  }

  /** `Plan:` stands at `p`. */
  predicate PlanAt(s: string, p: nat) {
    p + 5 <= |s| && s[p] == 'P' && s[p + 1] == 'l' && s[p + 2] == 'a' && s[p + 3] == 'n' && s[p + 4] == ':'
  }

  /** The pattern anchored at position `p`. */
  function MatchAt(s: string, p: nat): (m: Option<Match>)
    requires p <= |s|
    ensures m.Some? ==> m.value.start == p < m.value.end <= |s| && Placed(s, m.value)
  {
    if !PlanAt(s, p) then None
    else
      var q := p + 5;
      var tails := Tails(s);
      match TryWhitespace(s, tails, q, Skip(s, q, Space) - q)
      case None => None
      case Some((st, n)) => Some(Match(p, tails[n].value.close + 1, st, n, tails[n].value))
  }

  /**
   * A match found at `p` is a match of the pattern, and the backtracking
   * order chose it: its description is the longest that a tail follows, and
   * no longer run of blanks after `Plan:` leaves room for any description.
   */
  lemma MatchAtSound(s: string, p: nat)
    requires p <= |s| && MatchAt(s, p).Some?
    ensures MatchSpans(s, MatchAt(s, p).value)
    ensures var m := MatchAt(s, p).value;
      m.descStart <= Skip(s, p + 5, Space) && m.descEnd <= Skip(s, m.descStart, NotNewline)
    ensures var m := MatchAt(s, p).value;
      NoTailIn(s, m.descEnd, Skip(s, m.descStart, NotNewline))
    ensures var m := MatchAt(s, p).value;
      forall st :: m.descStart < st <= Skip(s, p + 5, Space) ==> NoTailIn(s, st, Skip(s, st, NotNewline))
  {
    var q := p + 5;
    var tails := Tails(s);
    var w := Skip(s, q, Space) - q;
    TryWhitespaceIsLast(s, tails, q, w);
    var r := TryWhitespace(s, tails, q, w).value;
    var st, n := r.0, r.1;
    var lineEnd := Skip(s, st, NotNewline);
    TryEndIsLast(s, tails, st, lineEnd);
    TableSound(s, n);
    SkipRun(s, q, Space);
    SkipRun(s, st, NotNewline);
    forall x, t | n < x <= lineEnd ensures !TailSpans(s, x, t) {
      TableSound(s, x);
    }
    forall v | st < v <= q + w
      ensures NoTailIn(s, v, Skip(s, v, NotNewline))
    {
      NoEnd(s, v);
    }
  }

  /** The table has no tail after any description from `v` when `TryEnd` finds none. */
  lemma NoEnd(s: string, v: nat)
    requires v <= |s| && TryEnd(s, Tails(s), v, Skip(s, v, NotNewline)).None?
    ensures NoTailIn(s, v, Skip(s, v, NotNewline))
  {
    TryEndIsLast(s, Tails(s), v, Skip(s, v, NotNewline));
    forall x, t | v < x <= Skip(s, v, NotNewline) ensures !TailSpans(s, x, t) {
      TableSound(s, x);
    }
  }

  /** `Plan:` not followed by any description that a tail follows, after any run of its blanks, anchors no match. */
  lemma MatchAtNone(s: string, p: nat)
    requires p <= |s| && PlanAt(s, p) && MatchAt(s, p).None?
    ensures forall st :: p + 5 <= st <= Skip(s, p + 5, Space) ==> NoTailIn(s, st, Skip(s, st, NotNewline))
  {
    var q := p + 5;
    var w := Skip(s, q, Space) - q;
    TryWhitespaceIsLast(s, Tails(s), q, w);
    forall v | q <= v <= q + w
      ensures NoTailIn(s, v, Skip(s, v, NotNewline))
    {
      NoEnd(s, v);
    }
  }

  /**
   * The converse of `MatchAtSound`: after `Plan:` and all its blanks, a
   * description up to `n` followed by the tail `t`, with no tail starting
   * later on the line, is the match at `p`.
   */
  lemma MatchAtWhen(s: string, p: nat, n: nat, t: Tail)
    requires p <= |s| && PlanAt(s, p)
    requires Skip(s, p + 5, Space) < n <= Skip(s, Skip(s, p + 5, Space), NotNewline)
    requires TailSpans(s, n, t)
    requires NoTailIn(s, n, Skip(s, Skip(s, p + 5, Space), NotNewline))
    ensures MatchAt(s, p) == Some(Match(p, t.close + 1, Skip(s, p + 5, Space), n, t))
  {
    var lineEnd := Skip(s, Skip(s, p + 5, Space), NotNewline);
    TableHas(s, n, t);
    TableEmpty(s, n, lineEnd);
    MatchAtOfTable(s, p, n, t);
  }

  /** Entries of the table after a stretch with no tail are empty. */
  lemma TableEmpty(s: string, n: nat, j: nat)
    requires j <= |s| && NoTailIn(s, n, j)
    ensures forall x :: n < x <= j ==> Tails(s)[x].None?
  {
    forall x | n < x <= j ensures Tails(s)[x].None? {
      TableSound(s, x);
    }
  }

  /** `MatchAtWhen` in terms of the table. */
  lemma MatchAtOfTable(s: string, p: nat, n: nat, t: Tail)
    requires p <= |s| && PlanAt(s, p)
    requires Skip(s, p + 5, Space) < n <= Skip(s, Skip(s, p + 5, Space), NotNewline)
    requires Tails(s)[n] == Some(t)
    requires forall x :: n < x <= Skip(s, Skip(s, p + 5, Space), NotNewline) ==> Tails(s)[x].None?
    ensures MatchAt(s, p) == Some(Match(p, t.close + 1, Skip(s, p + 5, Space), n, t))
  {
    var q := p + 5;
    var st := Skip(s, q, Space);
    TryEndAt(s, Tails(s), st, Skip(s, st, NotNewline), n);
    assert TryWhitespace(s, Tails(s), q, st - q) == Some((st, n));
  }

  /** The pieces of a match form a well-formed step. */
  lemma SpansWellFormed(s: string, m: Match)
    requires MatchSpans(s, m)
    ensures WellFormed(StepOf(s, m))
  {
    var t := m.tail;
    var st := StepOf(s, m);
    forall i | 0 <= i < |st.description| ensures st.description[i] != '\n' {
      assert st.description[i] == s[m.descStart + i] && InClass(s[m.descStart + i], NotNewline);
    }
    forall i | 2 <= i < |st.variable| ensures IsDigit(st.variable[i]) {
      assert st.variable[i] == s[t.hash + i] && InClass(s[t.hash + i], Digit);
    }
    assert st.variable[0] == s[t.hash] && st.variable[1] == s[t.hash + 1];
    forall i | 0 <= i < |st.tool| ensures IsWordChar(st.tool[i]) {
      assert st.tool[i] == s[t.toolStart + i] && InClass(s[t.toolStart + i], Word);
    }
    forall i | 0 <= i < |st.input| ensures st.input[i] != ']' {
      assert st.input[i] == s[t.bracket + 1 + i] && InClass(s[t.bracket + 1 + i], NotCloseBracket);
    }
  }

  /**
   * What anchoring the pattern at each position of `s` found: entry `p`
   * is a match that starts at `p` or nothing. `re.findall` searches it from
   * left to right.
   */
  predicate AnchorTable(s: string, anchors: seq<Option<Match>>) {
    |anchors| == |s| + 1
    && forall p :: 0 <= p < |anchors| && anchors[p].Some? ==>
         anchors[p].value.start == p < anchors[p].value.end <= |s| && Placed(s, anchors[p].value)
  }

  /** `MatchAt` at the positions before `n`. */
  function AnchorsUpTo(s: string, n: nat): (anchors: seq<Option<Match>>)
    requires n <= |s| + 1
    ensures |anchors| == n
    ensures forall p :: 0 <= p < n && anchors[p].Some? ==> anchors[p].value.start == p < anchors[p].value.end <= |s| && Placed(s, anchors[p].value)
  {
    if n == 0 then [] else AnchorsUpTo(s, n - 1) + [MatchAt(s, n - 1)]
  }

  /** `MatchAt` at every position of `s`. */
  function Anchors(s: string): (anchors: seq<Option<Match>>)
    ensures AnchorTable(s, anchors)
  {
    AnchorsUpTo(s, |s| + 1)
  }

  lemma {:induction false} AnchorsUpToAt(s: string, n: nat, p: nat)
    requires p < n <= |s| + 1
    ensures AnchorsUpTo(s, n)[p] == MatchAt(s, p)
    decreases n
  {
    if p < n - 1 {
      AnchorsUpToAt(s, n - 1, p);
    }
  }

  /** The table holds `MatchAt` at each position. */
  lemma AnchorsAt(s: string, p: nat)
    requires p <= |s|
    ensures Anchors(s)[p] == MatchAt(s, p)
  {
    AnchorsUpToAt(s, |s| + 1, p);
  }

  /** The leftmost match that starts at or after `pos`: what one step of `re.findall`'s search finds. */
  function Leftmost(s: string, anchors: seq<Option<Match>>, pos: nat): (m: Option<Match>)
    requires AnchorTable(s, anchors) && pos <= |s|
    ensures m.Some? ==> pos <= m.value.start < m.value.end <= |s| && Placed(s, m.value)
    decreases |s| - pos
  {
    match anchors[pos]
    case Some(m) => Some(m)
    case None => if pos == |s| then None else Leftmost(s, anchors, pos + 1)
  }

  /** `Leftmost` reports a match the table holds at its start. */
  lemma {:induction false} LeftmostFound(s: string, anchors: seq<Option<Match>>, pos: nat)
    requires AnchorTable(s, anchors) && pos <= |s| && Leftmost(s, anchors, pos).Some?
    ensures anchors[Leftmost(s, anchors, pos).value.start] == Leftmost(s, anchors, pos)
    decreases |s| - pos
  {
    if anchors[pos].None? {
      LeftmostFound(s, anchors, pos + 1);
    }
  }

  /** No position before the one `Leftmost` reports, or none at all if it reports nothing, anchors a match. */
  lemma {:induction false} LeftmostIsFirst(s: string, anchors: seq<Option<Match>>, pos: nat, p: nat)
    requires AnchorTable(s, anchors) && pos <= p <= |s|
    requires Leftmost(s, anchors, pos).None? || p < Leftmost(s, anchors, pos).value.start
    ensures anchors[p].None?
    decreases p - pos
  {
    if anchors[pos].None? && p > pos {
      LeftmostIsFirst(s, anchors, pos + 1, p);
    }
  }

  /** Where the search for the `k`-th match began: after the previous match, or at `pos`. */
  function GapStart(ms: seq<Match>, k: nat, pos: nat): nat
    requires k <= |ms|
  {
    if k == 0 then pos else ms[k - 1].end
  }

  /**
   * The matches `re.findall` reports from `pos` on: the leftmost match, then
   * the leftmost match from the end of the previous one, and so on until
   * none is left. They come in order and do not overlap.
   */
  function Matches(s: string, anchors: seq<Option<Match>>, pos: nat): (ms: seq<Match>)
    requires AnchorTable(s, anchors) && pos <= |s|
    ensures forall k :: 0 <= k < |ms| ==> pos <= ms[k].start < ms[k].end <= |s| && Placed(s, ms[k])
    ensures forall k {:trigger GapStart(ms, k, pos)} :: 0 <= k < |ms| ==> GapStart(ms, k, pos) <= ms[k].start
    decreases |s| - pos
  {
    var l := Leftmost(s, anchors, pos);
    if l.None? then []
    else
      var m := l.value;
      var rest := Matches(s, anchors, m.end);
      var ms := [m] + rest;
      assert forall k :: 1 <= k <= |ms| ==> GapStart(ms, k, pos) == GapStart(rest, k - 1, m.end);
      ms
  }

  /** The first match reported from `pos` is the leftmost one, and the rest are reported from its end. */
  lemma MatchesCons(s: string, anchors: seq<Option<Match>>, pos: nat)
    requires AnchorTable(s, anchors) && pos <= |s| && Leftmost(s, anchors, pos).Some?
    ensures Matches(s, anchors, pos) == [Leftmost(s, anchors, pos).value] + Matches(s, anchors, Leftmost(s, anchors, pos).value.end)
  {
  }

  /** The `k`-th match is the leftmost one from where the search for it began. */
  lemma {:induction false} MatchesAreLeftmost(s: string, anchors: seq<Option<Match>>, pos: nat, k: nat)
    requires AnchorTable(s, anchors) && pos <= |s| && k < |Matches(s, anchors, pos)|
    ensures Leftmost(s, anchors, GapStart(Matches(s, anchors, pos), k, pos)) == Some(Matches(s, anchors, pos)[k])
    decreases k
  {
    var m := Leftmost(s, anchors, pos).value;
    MatchesCons(s, anchors, pos);
    var ms, rest := Matches(s, anchors, pos), Matches(s, anchors, m.end);
    if k > 0 {
      MatchesAreLeftmost(s, anchors, m.end, k - 1);
      assert ms[k] == rest[k - 1] && GapStart(ms, k, pos) == GapStart(rest, k - 1, m.end);
    }
  }

  /** After the last match there is none left. */
  lemma {:induction false} MatchesExhaustive(s: string, anchors: seq<Option<Match>>, pos: nat)
    requires AnchorTable(s, anchors) && pos <= |s|
    ensures Leftmost(s, anchors, GapStart(Matches(s, anchors, pos), |Matches(s, anchors, pos)|, pos)).None?
    decreases |s| - pos
  {
    if Leftmost(s, anchors, pos).Some? {
      var m := Leftmost(s, anchors, pos).value;
      MatchesExhaustive(s, anchors, m.end);
      MatchesCons(s, anchors, pos);
    }
  }

  /**
   * `re.findall` semantics: every reported match is found by anchoring the
   * pattern at its start, no position between one match's end and the next
   * match's start anchors a match, and neither does any position after the
   * last match.
   */
  lemma NoMatchSkipped(s: string, pos: nat)
    requires pos <= |s|
    ensures forall k :: 0 <= k < |Matches(s, Anchors(s), pos)| ==>
      MatchAt(s, Matches(s, Anchors(s), pos)[k].start) == Some(Matches(s, Anchors(s), pos)[k])
    ensures forall k, p ::
      (0 <= k < |Matches(s, Anchors(s), pos)| && GapStart(Matches(s, Anchors(s), pos), k, pos) <= p < Matches(s, Anchors(s), pos)[k].start)
      ==> MatchAt(s, p).None?
    ensures forall p :: GapStart(Matches(s, Anchors(s), pos), |Matches(s, Anchors(s), pos)|, pos) <= p <= |s| ==> MatchAt(s, p).None?
  {
    var anchors := Anchors(s);
    var ms := Matches(s, anchors, pos);
    forall k | 0 <= k < |ms|
      ensures MatchAt(s, ms[k].start) == Some(ms[k])
      ensures forall p :: GapStart(ms, k, pos) <= p < ms[k].start ==> MatchAt(s, p).None?
    {
      var g := GapStart(ms, k, pos);
      MatchesAreLeftmost(s, anchors, pos, k);
      LeftmostFound(s, anchors, g);
      AnchorsAt(s, ms[k].start);
      forall p | g <= p < ms[k].start ensures MatchAt(s, p).None? {
        LeftmostIsFirst(s, anchors, g, p);
        AnchorsAt(s, p);
      }
    }
    MatchesExhaustive(s, anchors, pos);
    forall p | GapStart(ms, |ms|, pos) <= p <= |s| ensures MatchAt(s, p).None? {
      LeftmostIsFirst(s, anchors, GapStart(ms, |ms|, pos), p);
      AnchorsAt(s, p);
    }
  }

  /** Every match `re.findall` reports is a match of the pattern and yields a well-formed step. */
  lemma MatchesWellFormed(s: string, pos: nat)
    requires pos <= |s|
    ensures forall k :: 0 <= k < |Matches(s, Anchors(s), pos)| ==>
      MatchSpans(s, Matches(s, Anchors(s), pos)[k]) && WellFormed(StepOf(s, Matches(s, Anchors(s), pos)[k]))
  {
    var ms := Matches(s, Anchors(s), pos);
    NoMatchSkipped(s, pos);
    forall k | 0 <= k < |ms| ensures MatchSpans(s, ms[k]) && WellFormed(StepOf(s, ms[k])) {
      assert MatchAt(s, ms[k].start) == Some(ms[k]);
      MatchAtSound(s, ms[k].start);
      SpansWellFormed(s, ms[k]);
    }
  }

  /** `re.findall(regex_pattern, plan_text)`: the steps in order of appearance. */
  function Parse(planText: string): (steps: seq<Step>)
    ensures forall i :: 0 <= i < |steps| ==> WellFormed(steps[i])
  {
    MatchesWellFormed(planText, 0);
    var ms := Matches(planText, Anchors(planText), 0);
    seq(|ms|, i requires 0 <= i < |ms| => StepOf(planText, ms[i]))
  }

  /** A step as the ReWOO solver lists it: `Plan: ` and the description on one line, the call on the next. */
  function StepLine(st: Step): string {
    "Plan: " + (st.description + ("\n" + CallLine(st)))
  }

  /** The call of a step as both the planner and the solver write it: `#E<n> = Tool[input]`. */
  function CallLine(st: Step): string {
    st.variable + (" = " + (st.tool + ("[" + (st.input + "]"))))
  }

  /** The steps listed one after the other, with no separator. */
  function Lines(steps: seq<Step>): string
    decreases |steps|
  {
    if steps == [] then "" else StepLine(steps[0]) + Lines(steps[1..])
  }

  /** `piece` stands in `s` at `i`. */
  predicate Spells(s: string, i: nat, piece: string) {
    i + |piece| <= |s| && forall j :: 0 <= j < |piece| ==> s[i + j] == piece[j]
  }

  /** Where `a + b` stands, `a` stands, and `b` right after it. */
  lemma SpellsSplit(s: string, i: nat, a: string, b: string)
    requires Spells(s, i, a + b)
    ensures Spells(s, i, a) && Spells(s, i + |a|, b)
  {
    forall j | 0 <= j < |a| ensures s[i + j] == a[j] {
      assert (a + b)[j] == a[j];
    }
    forall j | 0 <= j < |b| ensures s[i + |a| + j] == b[j] {
      assert (a + b)[|a| + j] == b[j];
    }
  }

  /** Where a piece stands, the slice of `s` there is that piece. */
  lemma SpellsSlice(s: string, i: nat, piece: string)
    requires Spells(s, i, piece)
    ensures s[i..i + |piece|] == piece
  {
  }

  /** Where the pieces of a call stand, given where its variable starts. */
  predicate CallAt(s: string, a: nat, st: Step) {
    var ve := a + |st.variable|;
    var te := ve + 3 + |st.tool|;
    Spells(s, a, st.variable) && Spells(s, ve, " = ") && Spells(s, ve + 3, st.tool)
    && Spells(s, te, "[") && Spells(s, te + 1, st.input) && Spells(s, te + 1 + |st.input|, "]")
  }

  /** A written call stands piece by piece. */
  lemma CallPieces(s: string, a: nat, st: Step)
    requires Spells(s, a, CallLine(st))
    ensures CallAt(s, a, st)
  {
    var v, tool, x := st.variable, st.tool, st.input;
    var ve := a + |v|;
    var te := ve + 3 + |tool|;
    SpellsSplit(s, a, v, " = " + (tool + ("[" + (x + "]"))));
    SpellsSplit(s, ve, " = ", tool + ("[" + (x + "]")));
    SpellsSplit(s, ve + 3, tool, "[" + (x + "]"));
    SpellsSplit(s, te, "[", x + "]");
    SpellsSplit(s, te + 1, x, "]");
  }

  /** Where the tail pattern lies in a written call. */
  function CallTail(a: nat, st: Step): Tail {
    var ve := a + |st.variable|;
    var te := ve + 3 + |st.tool|;
    Tail(a, ve, ve + 1, ve + 3, te, te, te + 1 + |st.input|)
  }

  /** A written call of a well-formed step is a tail match from its `#`. */
  lemma CallTailSpans(s: string, a: nat, st: Step)
    requires WellFormed(st) && CallAt(s, a, st)
    ensures TailSpans(s, a, CallTail(a, st))
  {
    var t := CallTail(a, st);
    var v, tool, x := st.variable, st.tool, st.input;
    assert s[t.hash + 0] == v[0] && s[t.hash + 1] == v[1];
    assert s[t.digitsEnd + 0] == " = "[0] && s[t.digitsEnd + 1] == " = "[1] && s[t.digitsEnd + 2] == " = "[2];
    assert s[t.bracket + 0] == "["[0] && s[t.close + 0] == "]"[0];
    forall m | t.hash + 2 <= m < t.digitsEnd ensures IsDigit(s[m]) {
      assert s[t.hash + (m - t.hash)] == v[m - t.hash];
    }
    forall m | t.toolStart <= m < t.toolEnd ensures IsWordChar(s[m]) {
      assert s[t.toolStart + (m - t.toolStart)] == tool[m - t.toolStart];
    }
    forall m | t.bracket + 1 <= m < t.close ensures s[m] != ']' {
      assert s[t.bracket + 1 + (m - t.bracket - 1)] == x[m - t.bracket - 1];
    }
  }

  /** Groups 2 to 4 of a written call are its variable, tool and input. */
  lemma CallGroups(s: string, a: nat, st: Step)
    requires WellFormed(st) && CallAt(s, a, st)
    ensures var t := CallTail(a, st);
      InOrder(s, a, t) && s[t.hash..t.digitsEnd] == st.variable && s[t.toolStart..t.toolEnd] == st.tool
      && s[t.bracket + 1..t.close] == st.input
  {
    var ve := a + |st.variable|;
    var te := ve + 3 + |st.tool|;
    SpellsSlice(s, a, st.variable);
    SpellsSlice(s, ve + 3, st.tool);
    SpellsSlice(s, te + 1, st.input);
  }

  /** Where the pieces of a listed step stand, given where its line starts. */
  predicate LineAt(s: string, p: nat, st: Step) {
    var o := p + 6 + |st.description|;
    Spells(s, p, "Plan: ") && Spells(s, p + 6, st.description) && Spells(s, o, "\n") && CallAt(s, o + 1, st)
  }

  /** A listed step stands piece by piece. */
  lemma LinePieces(s: string, p: nat, st: Step)
    requires Spells(s, p, StepLine(st))
    ensures LineAt(s, p, st)
  {
    var d := st.description;
    var o := p + 6 + |d|;
    SpellsSplit(s, p, "Plan: ", d + ("\n" + CallLine(st)));
    SpellsSplit(s, p + 6, d, "\n" + CallLine(st));
    SpellsSplit(s, o, "\n", CallLine(st));
    CallPieces(s, o + 1, st);
  }

  /** Where the tail of a listed step lies: its call, on the line after the description. */
  function LineTail(p: nat, st: Step): Tail {
    CallTail(p + 6 + |st.description| + 1, st)
  }

  /** The call on the second line of a listed step is a tail from the newline on. */
  lemma LineTailSpans(s: string, p: nat, st: Step)
    requires WellFormed(st) && LineAt(s, p, st)
    ensures TailSpans(s, p + 6 + |st.description|, LineTail(p, st))
  {
    var o := p + 6 + |st.description|;
    CallTailSpans(s, o + 1, st);
    assert s[o + 0] == "\n"[0] && InClass(s[o], Space);
  }

  /** Where the pattern lies in a listed step at `p`. */
  function Listed(p: nat, st: Step): Match {
    Match(p, p + |StepLine(st)|, p + 6, p + 6 + |st.description|, LineTail(p, st))
  }

  /**
   * `Plan: `, a description on its own line starting with a non-blank, and
   * a tail from the newline on: the description runs to the end of the line.
   */
  lemma DescriptionLine(s: string, p: nat, o: nat, t: Tail)
    requires p + 6 < o < |s| && PlanAt(s, p) && s[p + 5] == ' ' && !IsSpace(s[p + 6])
    requires AllIn(s, p + 6, o, NotNewline) && s[o] == '\n' && TailSpans(s, o, t)
    ensures MatchAt(s, p) == Some(Match(p, t.close + 1, p + 6, o, t))
  {
    SkipTo(s, p + 5, p + 6, Space);
    SkipTo(s, p + 6, o, NotNewline);
    MatchAtWhen(s, p, o, t);
  }

  /** A listed step whose description starts with a non-blank is matched at its `Plan:`. */
  lemma LineMatch(s: string, p: nat, st: Step)
    requires Writable(st) && LineAt(s, p, st)
    ensures MatchAt(s, p) == Some(Listed(p, st))
  {
    var o := p + 6 + |st.description|;
    LineShape(s, p, st);
    DescriptionLine(s, p, o, LineTail(p, st));
  }

  /** What `DescriptionLine` needs of a listed step. */
  lemma LineShape(s: string, p: nat, st: Step)
    requires Writable(st) && LineAt(s, p, st)
    ensures var o := p + 6 + |st.description|;
      p + 6 < o < |s| && PlanAt(s, p) && s[p + 5] == ' ' && !IsSpace(s[p + 6])
      && AllIn(s, p + 6, o, NotNewline) && s[o] == '\n' && TailSpans(s, o, LineTail(p, st))
  {
    var d := st.description;
    var o := p + 6 + |d|;
    assert s[p + 0] == "Plan: "[0] && s[p + 1] == "Plan: "[1] && s[p + 2] == "Plan: "[2];
    assert s[p + 3] == "Plan: "[3] && s[p + 4] == "Plan: "[4] && s[p + 5] == "Plan: "[5];
    assert s[p + 6 + 0] == d[0] && s[o + 0] == "\n"[0];
    forall m | p + 6 <= m < o ensures InClass(s[m], NotNewline) {
      assert s[p + 6 + (m - p - 6)] == d[m - p - 6];
    }
    LineTailSpans(s, p, st);
  }

  /** The groups of a listed step are its fields. */
  lemma LineStep(s: string, p: nat, st: Step)
    requires WellFormed(st) && LineAt(s, p, st)
    ensures Placed(s, Listed(p, st)) && StepOf(s, Listed(p, st)) == st
  {
    SpellsSlice(s, p + 6, st.description);
    CallGroups(s, p + 6 + |st.description| + 1, st);
  }

  /** A listed writable step is matched at its `Plan:`, up to the end of its line. */
  lemma LineFound(s: string, p: nat, st: Step)
    requires Writable(st) && Spells(s, p, StepLine(st))
    ensures MatchAt(s, p) == Some(Listed(p, st)) && Listed(p, st).end == p + |StepLine(st)|
  {
    LinePieces(s, p, st);
    LineMatch(s, p, st);
  }

  /** A match anchored at `pos` is the first one reported from `pos`. */
  lemma MatchesStep(s: string, pos: nat, m: Match)
    requires pos <= |s| && MatchAt(s, pos) == Some(m)
    ensures Matches(s, Anchors(s), pos) == [m] + Matches(s, Anchors(s), m.end)
  {
    AnchorsAt(s, pos);
    MatchesCons(s, Anchors(s), pos);
  }

  /** Nothing is reported from the end of `s`. */
  lemma MatchesAtEnd(s: string)
    ensures Matches(s, Anchors(s), |s|) == []
  {
    AnchorsAt(s, |s|);
  }

  /** A match anchored at `pos` that runs to the end of `s` is the only one reported from `pos`. */
  lemma MatchesLast(s: string, pos: nat, m: Match)
    requires pos <= |s| && MatchAt(s, pos) == Some(m) && m.end == |s|
    ensures Matches(s, Anchors(s), pos) == [m]
  {
    MatchesStep(s, pos, m);
    MatchesAtEnd(s);
  }

  /** The steps stand one after the other from `pos` to the end of `s`. */
  predicate ListedFrom(s: string, pos: nat, steps: seq<Step>)
    decreases |steps|
  {
    if steps == [] then pos == |s|
    else Spells(s, pos, StepLine(steps[0])) && ListedFrom(s, pos + |StepLine(steps[0])|, steps[1..])
  }

  /** Where the listing stands up to the end of `s`, its steps do. */
  lemma {:induction false} LinesListed(s: string, pos: nat, steps: seq<Step>)
    requires Spells(s, pos, Lines(steps)) && pos + |Lines(steps)| == |s|
    ensures ListedFrom(s, pos, steps)
    decreases |steps|
  {
    if steps != [] {
      SpellsSplit(s, pos, StepLine(steps[0]), Lines(steps[1..]));
      LinesListed(s, pos + |StepLine(steps[0])|, steps[1..]);
    }
  }

  /** Where the pattern lies in each step of a listing that starts at `pos`. */
  function ListedMatches(pos: nat, steps: seq<Step>): (ms: seq<Match>)
    ensures |ms| == |steps|
    decreases |steps|
  {
    if steps == [] then [] else [Listed(pos, steps[0])] + ListedMatches(pos + |StepLine(steps[0])|, steps[1..])
  }

  /** Listed steps are found one after the other from where the listing starts. */
  lemma {:induction false} LinesMatch(s: string, pos: nat, steps: seq<Step>)
    requires pos <= |s| && ListedFrom(s, pos, steps)
    requires forall i :: 0 <= i < |steps| ==> Writable(steps[i])
    ensures Matches(s, Anchors(s), pos) == ListedMatches(pos, steps)
    decreases |steps|
  {
    if steps == [] {
      MatchesAtEnd(s);
    } else {
      LinesMatch(s, pos + |StepLine(steps[0])|, steps[1..]);
      LineFound(s, pos, steps[0]);
      MatchesStep(s, pos, Listed(pos, steps[0]));
    }
  }

  /** The groups of each listed match are the fields of its step. */
  lemma {:induction false} ListedSteps(s: string, pos: nat, steps: seq<Step>)
    requires ListedFrom(s, pos, steps)
    requires forall i :: 0 <= i < |steps| ==> WellFormed(steps[i])
    ensures forall i :: 0 <= i < |steps| ==> Placed(s, ListedMatches(pos, steps)[i]) && StepOf(s, ListedMatches(pos, steps)[i]) == steps[i]
    decreases |steps|
  {
    if steps != [] {
      var next := pos + |StepLine(steps[0])|;
      ListedSteps(s, next, steps[1..]);
      LinePieces(s, pos, steps[0]);
      LineStep(s, pos, steps[0]);
      var ms, rest := ListedMatches(pos, steps), ListedMatches(next, steps[1..]);
      forall i | 0 <= i < |steps| ensures Placed(s, ms[i]) && StepOf(s, ms[i]) == steps[i] {
        if i > 0 {
          assert ms[i] == rest[i - 1] && steps[i] == steps[1..][i - 1];
        }
      }
    }
  }

  /** Writable steps standing one after the other are what `Parse` reads. */
  lemma ParseListed(s: string, steps: seq<Step>)
    requires ListedFrom(s, 0, steps)
    requires forall i :: 0 <= i < |steps| ==> Writable(steps[i])
    ensures Parse(s) == steps
  {
    LinesMatch(s, 0, steps);
    ListedSteps(s, 0, steps);
  }

  /** The listing of writable steps parses back to the same steps. */
  lemma ParseLines(steps: seq<Step>)
    requires forall i :: 0 <= i < |steps| ==> Writable(steps[i])
    ensures Parse(Lines(steps)) == steps
  {
    var s := Lines(steps);
    assert Spells(s, 0, s);
    LinesListed(s, 0, steps);
    ParseListed(s, steps);
  }

  /**
   * A step as the planner writes it: `Plan: `, the description and the call
   * on one line, ended by a newline. The description holds whatever stands
   * between `Plan: ` and `#E`, a blank before `#E` included.
   */
  function ClauseLine(st: Step): string {
    "Plan: " + (st.description + (CallLine(st) + "\n"))
  }

  /** The planner's clauses one after the other. */
  function Clauses(steps: seq<Step>): string
    decreases |steps|
  {
    if steps == [] then "" else ClauseLine(steps[0]) + Clauses(steps[1..])
  }

  /**
   * A step the parser reads back unchanged from its clause: writable, and
   * no `#` of its input is followed later in the input by `=`, so that no
   * call starts inside the input.
   */
  predicate Plannable(st: Step) {
    Writable(st) && forall i, j :: 0 <= i < j < |st.input| && st.input[i] == '#' ==> st.input[j] != '='
  }

  /** Where the pieces of a clause stand, given where it starts. */
  predicate ClauseAt(s: string, p: nat, st: Step) {
    var a := p + 6 + |st.description|;
    Spells(s, p, "Plan: ") && Spells(s, p + 6, st.description) && CallAt(s, a, st) && Spells(s, a + |CallLine(st)|, "\n")
  }

  /** A written clause stands piece by piece. */
  lemma ClausePieces(s: string, p: nat, st: Step)
    requires Spells(s, p, ClauseLine(st))
    ensures ClauseAt(s, p, st)
  {
    var d := st.description;
    var a := p + 6 + |d|;
    SpellsSplit(s, p, "Plan: ", d + (CallLine(st) + "\n"));
    SpellsSplit(s, p + 6, d, CallLine(st) + "\n");
    SpellsSplit(s, a, CallLine(st), "\n");
    CallPieces(s, a, st);
  }

  /** After the clause at `p`, the text ends or the next `Plan:` starts. */
  predicate ClauseEnds(s: string, p: nat, st: Step) {
    var n := p + |ClauseLine(st)|;
    n <= |s| && (n == |s| || s[n] == 'P')
  }

  /** Where the pattern lies in a clause at `p`: up to its `]`, with the newline left over. */
  function Clausal(p: nat, st: Step): Match {
    var a := p + 6 + |st.description|;
    Match(p, a + |CallLine(st)|, p + 6, a, CallTail(a, st))
  }

  /** A character of a piece that stands in `s`. */
  lemma SpellsChar(s: string, i: int, piece: string, j: int)
    ensures 0 <= i && 0 <= j < |piece| && Spells(s, i, piece) ==> s[i + j] == piece[j]
  {
  }

  /** A character of a run of class characters. */
  lemma AllInAt(s: string, i: int, j: int, k: CharClass, m: int)
    ensures 0 <= i <= m < j <= |s| && AllIn(s, i, j, k) ==> InClass(s[m], k)
  {
  }

  /** No `#` stands in a call between its own `#` and its `[`. */
  lemma CallNoMark(s: string, a: nat, st: Step, h: nat)
    requires WellFormed(st) && CallAt(s, a, st) && a < h <= a + |st.variable| + 3 + |st.tool|
    ensures s[h] != '#'
  {
    var v, tool := st.variable, st.tool;
    var ve := a + |v|;
    if h < ve {
      assert s[a + (h - a)] == v[h - a];
    } else if h < ve + 3 {
      assert s[ve + (h - ve)] == " = "[h - ve];
    } else if h < ve + 3 + |tool| {
      assert s[ve + 3 + (h - ve - 3)] == tool[h - ve - 3];
    } else {
      assert s[h + 0] == "["[0];
    }
  }

  /** No tail match has its `#` inside the input of a plannable step's call. */
  lemma InputNoCall(s: string, a: nat, st: Step, x: nat, t: Tail)
    requires Plannable(st) && CallAt(s, a, st)
    ensures var te := a + |st.variable| + 3 + |st.tool|;
      TailSpans(s, x, t) ==> !(te + 1 <= t.hash < te + 1 + |st.input|)
  {
    var te := a + |st.variable| + 3 + |st.tool|;
    var c := te + 1 + |st.input|;
    var h := t.hash;
    if TailSpans(s, x, t) && te + 1 <= h < c {
      SpellsChar(s, te + 1, st.input, h - te - 1);
      SpellsChar(s, te + 1, st.input, t.equals - te - 1);
      SpellsChar(s, c, "]", 0);
      AllInAt(s, h + 2, t.digitsEnd, Digit, c);
      AllInAt(s, t.digitsEnd, t.equals, Space, c);
    }
  }

  /** No tail match from within a clause has its `#` past the clause's `]`. */
  lemma AfterClauseNoCall(s: string, p: nat, st: Step, x: nat, t: Tail)
    requires ClauseAt(s, p, st) && ClauseEnds(s, p, st) && x <= p + |ClauseLine(st)| - 1
    ensures TailSpans(s, x, t) ==> t.hash < p + |ClauseLine(st)| - 1
  {
    var n := p + |ClauseLine(st)|;
    var c := n - 2;
    if TailSpans(s, x, t) && t.hash >= n - 1 {
      SpellsChar(s, c, "]", 0);
      SpellsChar(s, c + 1, "\n", 0);
      AllInAt(s, x, t.hash, Space, c);
      AllInAt(s, x, t.hash, Space, n);
    }
  }

  /** No tail starts after the description of a plannable clause, up to its newline. */
  lemma NoCallFrom(s: string, p: nat, st: Step, x: nat, t: Tail)
    requires Plannable(st) && ClauseAt(s, p, st) && ClauseEnds(s, p, st)
    requires p + 6 + |st.description| < x <= p + |ClauseLine(st)| - 1
    ensures !TailSpans(s, x, t)
  {
    var a := p + 6 + |st.description|;
    if TailSpans(s, x, t) {
      InputNoCall(s, a, st, x, t);
      AfterClauseNoCall(s, p, st, x, t);
      if t.hash <= a + |st.variable| + 3 + |st.tool| {
        CallNoMark(s, a, st, t.hash);
      } else {
        SpellsChar(s, a + |st.variable| + 3 + |st.tool| + 1 + |st.input|, "]", 0);
      }
    }
  }

  /** The description of a plannable clause is the longest that a tail follows on its line. */
  lemma ClauseNoLaterCall(s: string, p: nat, st: Step)
    requires Plannable(st) && ClauseAt(s, p, st) && ClauseEnds(s, p, st)
    ensures NoTailIn(s, p + 6 + |st.description|, p + |ClauseLine(st)| - 1)
  {
    forall x, t | p + 6 + |st.description| < x <= p + |ClauseLine(st)| - 1 ensures !TailSpans(s, x, t) {
      NoCallFrom(s, p, st, x, t);
    }
  }

  /** A run of class characters is at most as long as the run `Skip` takes. */
  lemma {:induction false} SkipPast(s: string, i: nat, j: nat, k: CharClass)
    requires i <= j <= |s| && AllIn(s, i, j, k)
    ensures j <= Skip(s, i, k)
    decreases j - i
  {
    if i < j {
      assert InClass(s[i], k);
      SkipPast(s, i + 1, j, k);
    }
  }

  /** What `MatchAtWhen` needs of a clause: `Plan: `, and a line from the description that ends at the newline. */
  lemma ClauseShape(s: string, p: nat, st: Step)
    requires Writable(st) && ClauseAt(s, p, st)
    ensures var a := p + 6 + |st.description|;
      PlanAt(s, p) && Skip(s, p + 5, Space) == p + 6 && p + 6 < a <= Skip(s, p + 6, NotNewline) <= a + |CallLine(st)|
  {
    var d := st.description;
    var a := p + 6 + |d|;
    var nl := a + |CallLine(st)|;
    assert s[p + 0] == "Plan: "[0] && s[p + 1] == "Plan: "[1] && s[p + 2] == "Plan: "[2];
    assert s[p + 3] == "Plan: "[3] && s[p + 4] == "Plan: "[4] && s[p + 5] == "Plan: "[5];
    assert s[p + 6 + 0] == d[0] && s[nl + 0] == "\n"[0];
    SkipTo(s, p + 5, p + 6, Space);
    forall m | p + 6 <= m < a ensures InClass(s[m], NotNewline) {
      assert s[p + 6 + (m - p - 6)] == d[m - p - 6];
    }
    SkipPast(s, p + 6, a, NotNewline);
    SkipRun(s, p + 6, NotNewline);
    AllInAt(s, p + 6, Skip(s, p + 6, NotNewline), NotNewline, nl);
  }

  /** A plannable clause is matched at its `Plan:`, up to its `]`. */
  lemma ClauseMatch(s: string, p: nat, st: Step)
    requires Plannable(st) && ClauseAt(s, p, st) && ClauseEnds(s, p, st)
    ensures MatchAt(s, p) == Some(Clausal(p, st))
  {
    var a := p + 6 + |st.description|;
    ClauseShape(s, p, st);
    CallTailSpans(s, a, st);
    ClauseNoLaterCall(s, p, st);
    MatchAtWhen(s, p, a, CallTail(a, st));
  }

  /** The groups of a clause's match are the fields of its step. */
  lemma ClauseStep(s: string, p: nat, st: Step)
    requires WellFormed(st) && ClauseAt(s, p, st)
    ensures Placed(s, Clausal(p, st)) && StepOf(s, Clausal(p, st)) == st
  {
    SpellsSlice(s, p + 6, st.description);
    CallGroups(s, p + 6 + |st.description|, st);
  }

  /** A written plannable clause is matched at its `Plan:`, and its newline follows the match. */
  lemma ClauseFound(s: string, p: nat, st: Step)
    requires Plannable(st) && Spells(s, p, ClauseLine(st)) && ClauseEnds(s, p, st)
    ensures MatchAt(s, p) == Some(Clausal(p, st)) && Clausal(p, st).end == p + |ClauseLine(st)| - 1
    ensures s[Clausal(p, st).end] == '\n'
  {
    ClausePieces(s, p, st);
    ClauseMatch(s, p, st);
    assert s[Clausal(p, st).end + 0] == "\n"[0];
  }

  /** A newline anchors no match. */
  lemma NewlineNoMatch(s: string, q: nat)
    requires q < |s| && s[q] == '\n'
    ensures MatchAt(s, q).None?
  {
  }

  /** A position that anchors no match adds nothing to what is reported from it. */
  lemma MatchesPast(s: string, pos: nat)
    requires pos < |s| && MatchAt(s, pos).None?
    ensures Matches(s, Anchors(s), pos) == Matches(s, Anchors(s), pos + 1)
  {
    AnchorsAt(s, pos);
    assert Leftmost(s, Anchors(s), pos) == Leftmost(s, Anchors(s), pos + 1);
  }

  /** The clauses stand one after the other from `pos` to the end of `s`. */
  predicate ClausesFrom(s: string, pos: nat, steps: seq<Step>)
    decreases |steps|
  {
    if steps == [] then pos == |s|
    else Spells(s, pos, ClauseLine(steps[0])) && ClausesFrom(s, pos + |ClauseLine(steps[0])|, steps[1..])
  }

  /** Where the clauses stand up to the end of `s`, each of them does. */
  lemma {:induction false} ClausesListed(s: string, pos: nat, steps: seq<Step>)
    requires Spells(s, pos, Clauses(steps)) && pos + |Clauses(steps)| == |s|
    ensures ClausesFrom(s, pos, steps)
    decreases |steps|
  {
    if steps != [] {
      SpellsSplit(s, pos, ClauseLine(steps[0]), Clauses(steps[1..]));
      ClausesListed(s, pos + |ClauseLine(steps[0])|, steps[1..]);
    }
  }

  /** Clauses from `pos` on leave `s` ended there or starting its next `Plan:` there. */
  lemma ClausesStart(s: string, pos: nat, steps: seq<Step>)
    requires ClausesFrom(s, pos, steps)
    ensures pos <= |s| && (pos == |s| || s[pos] == 'P')
  {
    if steps != [] {
      assert s[pos + 0] == ClauseLine(steps[0])[0];
    }
  }

  /** Where the pattern lies in each clause of a plan that starts at `pos`. */
  function ClauseMatches(pos: nat, steps: seq<Step>): (ms: seq<Match>)
    ensures |ms| == |steps|
    decreases |steps|
  {
    if steps == [] then [] else [Clausal(pos, steps[0])] + ClauseMatches(pos + |ClauseLine(steps[0])|, steps[1..])
  }

  /** Plannable clauses are found one after the other from where the plan starts. */
  lemma {:induction false} ClausesMatch(s: string, pos: nat, steps: seq<Step>)
    requires pos <= |s| && ClausesFrom(s, pos, steps)
    requires forall i :: 0 <= i < |steps| ==> Plannable(steps[i])
    ensures Matches(s, Anchors(s), pos) == ClauseMatches(pos, steps)
    decreases |steps|
  {
    if steps == [] {
      MatchesAtEnd(s);
    } else {
      var next := pos + |ClauseLine(steps[0])|;
      ClausesStart(s, next, steps[1..]);
      ClausesMatch(s, next, steps[1..]);
      ClauseFound(s, pos, steps[0]);
      var m := Clausal(pos, steps[0]);
      MatchesStep(s, pos, m);
      NewlineNoMatch(s, m.end);
      MatchesPast(s, m.end);
    }
  }

  /** The groups of each clause's match are the fields of its step. */
  lemma {:induction false} ClauseSteps(s: string, pos: nat, steps: seq<Step>)
    requires ClausesFrom(s, pos, steps)
    requires forall i :: 0 <= i < |steps| ==> WellFormed(steps[i])
    ensures forall i :: 0 <= i < |steps| ==> Placed(s, ClauseMatches(pos, steps)[i]) && StepOf(s, ClauseMatches(pos, steps)[i]) == steps[i]
    decreases |steps|
  {
    if steps != [] {
      var next := pos + |ClauseLine(steps[0])|;
      ClauseSteps(s, next, steps[1..]);
      ClausePieces(s, pos, steps[0]);
      ClauseStep(s, pos, steps[0]);
      var ms, rest := ClauseMatches(pos, steps), ClauseMatches(next, steps[1..]);
      forall i | 0 <= i < |steps| ensures Placed(s, ms[i]) && StepOf(s, ms[i]) == steps[i] {
        if i > 0 {
          assert ms[i] == rest[i - 1] && steps[i] == steps[1..][i - 1];
        }
      }
    }
  }

  /** Plannable clauses standing one after the other are what `Parse` reads. */
  lemma ParseClausesFrom(s: string, steps: seq<Step>)
    requires ClausesFrom(s, 0, steps)
    requires forall i :: 0 <= i < |steps| ==> Plannable(steps[i])
    ensures Parse(s) == steps
  {
    ClausesMatch(s, 0, steps);
    ClauseSteps(s, 0, steps);
  }

  /**
   * The parser round trip: a plan of plannable clauses, one per line, parses
   * to exactly its steps, in order, each field as written.
   */
  lemma ParseClauses(steps: seq<Step>)
    requires forall i :: 0 <= i < |steps| ==> Plannable(steps[i])
    ensures Parse(Clauses(steps)) == steps
  {
    var s := Clauses(steps);
    assert Spells(s, 0, s);
    ClausesListed(s, 0, steps);
    ParseClausesFrom(s, steps);
  }

  /** The steps of the example plan can be written as clauses. */
  lemma ExamplePlannable(steps: seq<Step>)
    requires steps == [Step("add ", "#E1", "Google", "2+3"), Step("double ", "#E2", "LLM", "Double #E1")]
    ensures forall i :: 0 <= i < |steps| ==> Plannable(steps[i])
  {
    var x := steps[1].input;
    assert x[7] == '#' && forall j :: 0 <= j < |x| && x[j] == '#' ==> j == 7;
    assert forall j :: 7 < j < |x| ==> x[j] != '=';
  }

  /** The first clause of the example plan. */
  lemma ExampleFirstLine(st: Step)
    requires st == Step("add ", "#E1", "Google", "2+3")
    ensures ClauseLine(st) == "Plan: add #E1 = Google[2+3]\n"
  {
  }

  /** The second clause of the example plan. */
  lemma ExampleSecondLine(st: Step)
    requires st == Step("double ", "#E2", "LLM", "Double #E1")
    ensures ClauseLine(st) == "Plan: double #E2 = LLM[Double #E1]\n"
  {
  }

  /** The example plan, written as clauses. */
  lemma ExampleClauses(s: string, steps: seq<Step>)
    requires s == "Plan: add #E1 = Google[2+3]\n" + "Plan: double #E2 = LLM[Double #E1]\n"
    requires steps == [Step("add ", "#E1", "Google", "2+3"), Step("double ", "#E2", "LLM", "Double #E1")]
    ensures Clauses(steps) == s
  {
    assert steps[1..] == [steps[1]] && steps[1..][1..] == [];
    assert Clauses(steps[1..][1..]) == [];
    assert Clauses(steps[1..]) == ClauseLine(steps[1]) + [];
    ExampleFirstLine(steps[0]);
    ExampleSecondLine(steps[1]);
  }

  /** A two-step plan, the second step's input naming the first's evidence, parses to its two steps. */
  lemma ExamplePlanParses(s: string, steps: seq<Step>)
    requires s == "Plan: add #E1 = Google[2+3]\n" + "Plan: double #E2 = LLM[Double #E1]\n"
    requires steps == [Step("add ", "#E1", "Google", "2+3"), Step("double ", "#E2", "LLM", "Double #E1")]
    ensures Parse(s) == steps
  {
    ExampleClauses(s, steps);
    ExamplePlannable(steps);
    ParseClauses(steps);
  }

  /** On the planner's one-line form the call stands from the blank on. */
  lemma TrailingSpaceTail(s: string)
    requires s == "Plan:a #E1=G[x]"
    ensures TailSpans(s, 7, Tail(7, 10, 10, 11, 12, 12, 14))
  {
  }

  /** The description runs from `Plan:` to the end of the line, and no call starts later on it. */
  lemma TrailingSpaceRuns(s: string)
    requires s == "Plan:a #E1=G[x]"
    ensures Skip(s, 5, Space) == 5 && Skip(s, 5, NotNewline) == 15 && NoTailIn(s, 7, 15)
  {
    SkipTo(s, 5, 15, NotNewline);
    forall x, t | 7 < x <= 15 ensures !TailSpans(s, x, t) {
      NoMarkNoTail(s, x);
    }
  }

  /** The pattern matches from `Plan:` to the closing bracket. */
  lemma TrailingSpaceMatch(s: string)
    requires s == "Plan:a #E1=G[x]"
    ensures MatchAt(s, 0) == Some(Match(0, 15, 5, 7, Tail(7, 10, 10, 11, 12, 12, 14)))
  {
    TrailingSpaceTail(s);
    TrailingSpaceRuns(s);
    MatchAtWhen(s, 0, 7, Tail(7, 10, 10, 11, 12, 12, 14));
  }

  /** On the planner's one-line form, group 1 keeps the blank before `#E`. */
  lemma TrailingSpaceKept(s: string)
    requires s == "Plan:a #E1=G[x]"
    ensures Parse(s) == [Step("a ", "#E1", "G", "x")]
  {
    TrailingSpaceMatch(s);
    MatchesLast(s, 0, Match(0, 15, 5, 7, Tail(7, 10, 10, 11, 12, 12, 14)));
    assert s[5..7] == "a " && s[7..10] == "#E1" && s[11..12] == "G" && s[13..14] == "x";
  }

  /** With two clauses on one line, the second call stands from the blank before it. */
  lemma SameLineTail(s: string)
    requires s == "Plan:a #E1=G[x] Plan:b #E2=L[y]"
    ensures TailSpans(s, 23, Tail(23, 26, 26, 27, 28, 28, 30))
  {
  }

  /** The line runs to the end of `s`, and no call starts after the second blank. */
  lemma SameLineRuns(s: string)
    requires s == "Plan:a #E1=G[x] Plan:b #E2=L[y]"
    ensures Skip(s, 5, Space) == 5 && Skip(s, 5, NotNewline) == 31 && NoTailIn(s, 23, 31)
  {
    SkipTo(s, 5, 31, NotNewline);
    forall x, t | 23 < x <= 31 ensures !TailSpans(s, x, t) {
      NoMarkNoTail(s, x);
    }
  }

  /** The pattern matches from the first `Plan:` to the last closing bracket. */
  lemma SameLineMatch(s: string)
    requires s == "Plan:a #E1=G[x] Plan:b #E2=L[y]"
    ensures MatchAt(s, 0) == Some(Match(0, 31, 5, 23, Tail(23, 26, 26, 27, 28, 28, 30)))
  {
    SameLineTail(s);
    SameLineRuns(s);
    MatchAtWhen(s, 0, 23, Tail(23, 26, 26, 27, 28, 28, 30));
  }

  /** The groups of that match. */
  lemma SameLineGroups(s: string)
    requires s == "Plan:a #E1=G[x] Plan:b #E2=L[y]"
    ensures s[5..23] == "a #E1=G[x] Plan:b " && s[23..26] == "#E2" && s[27..28] == "L" && s[29..30] == "y"
  {
    SameLineDescription(s);
  }

  /** Group 1 of that match. */
  lemma SameLineDescription(s: string)
    requires s == "Plan:a #E1=G[x] Plan:b #E2=L[y]"
    ensures s[5..23] == "a #E1=G[x] Plan:b "
  {
    assert s == ("Plan:" + "a #E1=G[x] Plan:b ") + "#E2=L[y]";
  }

  /**
   * Two clauses on one line make one step: greedy `(.+)` runs to the last
   * tail on the line, so the first clause becomes part of the description.
   */
  lemma SameLineClausesMerge(s: string)
    requires s == "Plan:a #E1=G[x] Plan:b #E2=L[y]"
    ensures Parse(s) == [Step("a #E1=G[x] Plan:b ", "#E2", "L", "y")]
  {
    SameLineMatch(s);
    MatchesLast(s, 0, Match(0, 31, 5, 23, Tail(23, 26, 26, 27, 28, 28, 30)));
    SameLineGroups(s);
  }
}
