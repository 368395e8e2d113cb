/** The interactive front end (src/cli.py): reading titles one line at a
    time, the yes/no confirmation, and counting the results. Standard input is
    a sequence of lines; reading past its end is end-of-file. */
module Cli {
  import opened Wrappers
  import Utils
  import Generator

  /** One call of `input()`: a line, or `EOFError`. */
  datatype Line = Eof | Text(s: string)

  /** Line `i` of the input; past the end, every read is end-of-file. */
  function ReadLine(input: seq<Line>, i: nat): Line {
    if i < |input| then input[i] else Eof
  }

  /** ASCII case mapping; other characters are left alone. */
  function Upper(s: string): (r: string)
    ensures |r| == |s|
  {
    seq(|s|, i requires 0 <= i < |s| => if 'a' <= s[i] <= 'z' then (s[i] as int - 32) as char else s[i])
  }

  function Lower(s: string): (r: string)
    ensures |r| == |s|
  {
    seq(|s|, i requires 0 <= i < |s| => if 'A' <= s[i] <= 'Z' then (s[i] as int + 32) as char else s[i])
  }

  /** `line.upper() == 'END'`. */
  predicate IsEnd(line: string) {
    Upper(line) == "END"
  }

  /** The stripped line read is empty. */
  predicate IsEmptyAt(input: seq<Line>, i: nat) {
    ReadLine(input, i).Text? && Utils.Strip(ReadLine(input, i).s) == []
  }

  // ---------------------------------------------------------------------
  // _collect_titles (src/cli.py:56-104)
  // ---------------------------------------------------------------------

  /** Reading stops at line `i`: end-of-file, an `END` line, or a second empty
      line in a row (any other line resets the count of empty lines). */
  predicate StopsAt(input: seq<Line>, i: nat)
    ensures i >= |input| ==> StopsAt(input, i)
    ensures IsEmptyAt(input, i) && !StopsAt(input, i) ==> i == 0 || !IsEmptyAt(input, i - 1)
  {
    ReadLine(input, i).Eof? ||
    IsEnd(Utils.Strip(ReadLine(input, i).s)) ||
    (IsEmptyAt(input, i) && i > 0 && IsEmptyAt(input, i - 1))
  }

  /** The titles kept from the stripped lines `lines`, read in order: a line is
      kept when it passes `validate_title` and has not been kept before. */
  function Kept(lines: seq<string>): (titles: seq<string>)
    ensures |titles| <= |lines|
    ensures forall k :: 0 <= k < |titles| ==> Utils.IsValidTitle(titles[k])
    decreases |lines|
  {
    if lines == [] then []
    else
      var before := Kept(lines[..|lines| - 1]);
      var line := lines[|lines| - 1];
      if Utils.IsValidTitle(line) && line !in before then before + [line] else before
  }

  /** The stripped texts of the first `n` lines. */
  function StrippedLines(input: seq<Line>, n: nat): (lines: seq<string>)
    requires n <= |input| && forall i :: 0 <= i < n ==> input[i].Text?
    ensures |lines| == n
  {
    if n == 0 then [] else StrippedLines(input, n - 1) + [Utils.Strip(input[n - 1].s)]
  }

  /** Line `j` of the stripped lines is line `j` of the input, stripped. */
  lemma {:induction false} StrippedLineAt(input: seq<Line>, n: nat, j: nat)
    requires n <= |input| && forall i :: 0 <= i < n ==> input[i].Text?
    requires j < n
    ensures StrippedLines(input, n)[j] == Utils.Strip(input[j].s)
  {
    if j < n - 1 {
      StrippedLineAt(input, n - 1, j);
      assert StrippedLines(input, n)[j] == StrippedLines(input, n - 1)[j];
    }
  }

  /** `_collect_titles`: reads until the first stop line; `stop` is its index,
      and `titles` are the lines kept before it. */
  method CollectTitles(input: seq<Line>) returns (titles: seq<string>, stop: nat)
    ensures stop <= |input| && StopsAt(input, stop)
    ensures forall i :: 0 <= i < stop ==> !StopsAt(input, i)
    ensures forall i :: 0 <= i < stop ==> input[i].Text?
    ensures titles == Kept(StrippedLines(input, stop))
  {
    titles := [];
    var seen: set<string> := {};
    var emptyLineCount := 0;
    var i := 0;
    ghost var lines: seq<string> := [];
    while true
      invariant Collecting(input, i, lines, titles, seen, emptyLineCount)
      decreases |input| - i
    {
      var done;
      done, titles, seen, emptyLineCount := ReadTitleLine(input, i, lines, titles, seen, emptyLineCount);
      if done {
        break;
      }
      lines := lines + [Utils.Strip(input[i].s)];
      i := i + 1;
    }
    Finish(input, i, lines, titles);
    stop := i;
  }

  /** One pass of the loop of `_collect_titles`: reads line `i` and reports
      whether reading stops there; otherwise it returns the state after that
      line. */
  method ReadTitleLine(input: seq<Line>, i: nat, ghost lines: seq<string>, titles: seq<string>, seen: set<string>,
                       emptyLineCount: int)
    returns (done: bool, titles': seq<string>, seen': set<string>, emptyLineCount': int)
    requires Collecting(input, i, lines, titles, seen, emptyLineCount)
    ensures done <==> StopsAt(input, i)
    ensures done ==> titles' == titles
    ensures !done ==> i < |input| && input[i].Text? &&
                      Collecting(input, i + 1, lines + [Utils.Strip(input[i].s)], titles', seen', emptyLineCount')
  {
    titles', seen', emptyLineCount' := titles, seen, emptyLineCount;
    var read := ReadLine(input, i);
    if read.Eof? {
      return true, titles', seen', emptyLineCount';
    }
    var line := Utils.Strip(read.s);
    StopsIff(input, i, emptyLineCount);
    if line == [] {
      emptyLineCount' := emptyLineCount' + 1;
      if emptyLineCount' >= 2 {
        return true, titles', seen', emptyLineCount';
      }
    } else {
      if Upper(line) == "END" {
        return true, titles', seen', emptyLineCount';
      }
      emptyLineCount' := 0;
      if Utils.IsValidTitle(line) && line !in seen {
        titles' := titles' + [line];
        seen' := seen' + {line};
      }
    }
    Advance(input, i, lines, titles, seen, emptyLineCount);
    done := false;
  }

  /** Reading stops at line `i` with the titles kept so far. */
  lemma Finish(input: seq<Line>, i: nat, lines: seq<string>, titles: seq<string>)
    requires ReadsOn(input, i) && lines == StrippedLines(input, i) && titles == Kept(lines) && StopsAt(input, i)
    ensures i <= |input| && StopsAt(input, i)
    ensures forall j :: 0 <= j < i ==> !StopsAt(input, j)
    ensures forall j :: 0 <= j < i ==> input[j].Text?
    ensures titles == Kept(StrippedLines(input, i))
  {
  }

  /** The state of `_collect_titles` after reading the first `i` lines. */
  predicate Collecting(input: seq<Line>, i: nat, lines: seq<string>, titles: seq<string>, seen: set<string>,
                       emptyLineCount: int) {
    ReadsOn(input, i) && lines == StrippedLines(input, i) && titles == Kept(lines) &&
    seen == Elements(titles) && emptyLineCount == EmptyBefore(input, i)
  }

  /** The empty-line counter before line `i` is read: 1 after an empty line, 0 otherwise. */
  function EmptyBefore(input: seq<Line>, i: nat): int {
    if i > 0 && IsEmptyAt(input, i - 1) then 1 else 0
  }

  /** Line `i` stops the reading exactly when the loop breaks on it: a second
      empty line, or an `END` line. */
  lemma StopsIff(input: seq<Line>, i: nat, emptyLineCount: int)
    requires ReadLine(input, i).Text? && emptyLineCount == EmptyBefore(input, i)
    ensures var line := Utils.Strip(ReadLine(input, i).s);
            StopsAt(input, i) <==> (line == [] && emptyLineCount + 1 >= 2) || (line != [] && Upper(line) == "END")
  {
    var line := Utils.Strip(input[i].s);
    assert line == [] ==> !IsEnd(line);
  }

  /** A line that does not stop the reading moves the state on as the loop of
      `_collect_titles` does. */
  lemma Advance(input: seq<Line>, i: nat, lines: seq<string>, titles: seq<string>, seen: set<string>,
                emptyLineCount: int)
    requires Collecting(input, i, lines, titles, seen, emptyLineCount)
    requires ReadLine(input, i).Text? && !StopsAt(input, i)
    ensures var line := Utils.Strip(ReadLine(input, i).s);
            var keep := line != [] && Utils.IsValidTitle(line) && line !in seen;
            Collecting(input, i + 1, lines + [line], if keep then titles + [line] else titles,
                       if keep then seen + {line} else seen, if line == [] then emptyLineCount + 1 else 0)
  {
    var line := Utils.Strip(input[i].s);
    KeptStep(lines, line);
    SeenStep(titles, seen, line);
    EmptyIsInvalid();
    ReadOn(input, i);
  }

  /** An empty line is never a valid title. */
  lemma EmptyIsInvalid()
    ensures !Utils.IsValidTitle([])
  {
  }

  /** The set of the elements of `s`. */
  function Elements(s: seq<string>): set<string> {
    if s == [] then {} else Elements(s[..|s| - 1]) + {s[|s| - 1]}
  }

  /** `seen_titles` mirrors the titles kept so far. */
  lemma SeenStep(titles: seq<string>, seen: set<string>, line: string)
    requires seen == Elements(titles)
    ensures (line in seen <==> line in titles) && Elements(titles + [line]) == seen + {line}
  {
    ElementsMembers(titles, line);
    assert (titles + [line])[..|titles|] == titles;
  }

  lemma {:induction false} ElementsMembers(s: seq<string>, x: string)
    ensures x in Elements(s) <==> x in s
    decreases |s|
  {
    if s != [] {
      ElementsMembers(s[..|s| - 1], x);
      assert s == s[..|s| - 1] + [s[|s| - 1]];
    }
  }

  /** No line before `i` stops the reading. */
  predicate ReadsOn(input: seq<Line>, i: nat) {
    i <= |input| && (forall j :: 0 <= j < i ==> input[j].Text?) &&
    forall j {:trigger StopsAt(input, j)} :: 0 <= j < i ==> !StopsAt(input, j)
  }

  /** A line that is neither empty after an empty one nor `END` lets reading go on. */
  lemma ReadOn(input: seq<Line>, i: nat)
    requires ReadsOn(input, i) && i < |input| && input[i].Text?
    requires IsEmptyAt(input, i) ==> !(i > 0 && IsEmptyAt(input, i - 1))
    requires Utils.Strip(input[i].s) != [] ==> !IsEnd(Utils.Strip(input[i].s))
    ensures ReadsOn(input, i + 1)
  {
    assert Utils.Strip(input[i].s) == [] ==> !IsEnd(Utils.Strip(input[i].s));
    assert !StopsAt(input, i);
  }

  /** Reading one more line extends the kept titles as `_collect_titles` does. */
  lemma KeptStep(lines: seq<string>, line: string)
    ensures Kept(lines + [line]) ==
              if Utils.IsValidTitle(line) && line !in Kept(lines) then Kept(lines) + [line] else Kept(lines)
  {
    assert (lines + [line])[..|lines|] == lines;
  }

  /** No title is kept twice. */
  lemma {:induction false} KeptDistinct(lines: seq<string>)
    ensures forall a, b :: 0 <= a < b < |Kept(lines)| ==> Kept(lines)[a] != Kept(lines)[b]
    decreases |lines|
  {
    if lines != [] {
      KeptDistinct(lines[..|lines| - 1]);
    }
  }

  /** The kept titles are exactly the distinct valid lines. */
  lemma {:induction false} KeptAreValidLines(lines: seq<string>)
    ensures forall t :: t in Kept(lines) <==> t in lines && Utils.IsValidTitle(t)
    decreases |lines|
  {
    if lines != [] {
      var front := lines[..|lines| - 1];
      KeptAreValidLines(front);
      assert lines == front + [lines[|lines| - 1]];
    }
  }

  /** The index of the first occurrence of `x` in `s`. */
  function IndexOf(s: seq<string>, x: string): (k: nat)
    requires x in s
    ensures k < |s| && s[k] == x && x !in s[..k]
  {
    if s[0] == x then 0
    else
      var k := 1 + IndexOf(s[1..], x);
      assert s[..k] == [s[0]] + s[1..][..k - 1];
      k
  }

  /** Appending to a sequence does not move the first occurrence of an element already in it. */
  lemma IndexOfExtended(s: seq<string>, y: string, x: string)
    requires x in s
    ensures IndexOf(s + [y], x) == IndexOf(s, x) < |s|
  {
    var k := IndexOf(s, x);
    var k' := IndexOf(s + [y], x);
    assert (s + [y])[k] == x;
  }

  /** A new element appended to a sequence first occurs at the end. */
  lemma IndexOfAppended(s: seq<string>, y: string)
    requires y !in s
    ensures IndexOf(s + [y], y) == |s|
  {
    assert forall j :: 0 <= j < |s| ==> (s + [y])[j] == s[j];
  }

  /** Titles are kept in the order in which they first appear. */
  lemma {:induction false} KeptInInputOrder(lines: seq<string>)
    ensures forall t :: t in Kept(lines) ==> t in lines
    ensures forall a, b :: 0 <= a < b < |Kept(lines)| ==>
              IndexOf(lines, Kept(lines)[a]) < IndexOf(lines, Kept(lines)[b])
    decreases |lines|
  {
    KeptAreValidLines(lines);
    if lines != [] {
      var front, last := lines[..|lines| - 1], lines[|lines| - 1];
      assert lines == front + [last];
      KeptInInputOrder(front);
      KeptOrderStep(front, last);
    }
  }

  /** Reading one more line keeps the kept titles in first-occurrence order. */
  lemma KeptOrderStep(front: seq<string>, last: string)
    requires forall t :: t in Kept(front) ==> t in front
    requires forall a, b :: 0 <= a < b < |Kept(front)| ==>
               IndexOf(front, Kept(front)[a]) < IndexOf(front, Kept(front)[b])
    ensures forall t :: t in Kept(front + [last]) ==> t in front + [last]
    ensures forall a, b :: 0 <= a < b < |Kept(front + [last])| ==>
              IndexOf(front + [last], Kept(front + [last])[a]) < IndexOf(front + [last], Kept(front + [last])[b])
  {
    KeptAreValidLines(front);
    KeptAreValidLines(front + [last]);
    KeptStep(front, last);
    var lines, before, after := front + [last], Kept(front), Kept(front + [last]);
    assert forall a :: 0 <= a < |before| ==> after[a] == before[a];
    forall a, b | 0 <= a < b < |after|
      ensures IndexOf(lines, after[a]) < IndexOf(lines, after[b])
    {
      IndexOfExtended(front, last, before[a]);
      if b < |before| {
        IndexOfExtended(front, last, before[b]);
      } else {
        assert after[b] == last && last !in front;
        IndexOfAppended(front, last);
      }
    }
  }

  // ---------------------------------------------------------------------
  // _confirm_generation (src/cli.py:106-125)
  // ---------------------------------------------------------------------

  /** How the confirmation prompt reads one answer. */
  datatype Answer = Yes | No | Again

  /** `y`/`yes` proceeds; `n`/`no`/an empty answer or end-of-file cancels;
      anything else asks again. Case and surrounding whitespace are ignored. */
  function Classify(l: Line): (a: Answer)
    ensures l.Eof? ==> a == No
    ensures l.Text? ==> (a == Yes <==> Lower(Utils.Strip(l.s)) in ["y", "yes"])
    ensures l.Text? ==> (a == No <==> Lower(Utils.Strip(l.s)) in ["n", "no", ""])
  {
    match l
    case Eof => No
    case Text(s) =>
      var response := Lower(Utils.Strip(s));
      if response in ["y", "yes"] then Yes
      else if response in ["n", "no", ""] then No
      else Again
  }

  /** `_confirm_generation`: asks until an answer decides; `asked` is the
      index of the deciding answer, and `proceed` is false where the source
      calls `sys.exit(0)`. */
  method ConfirmGeneration(answers: seq<Line>) returns (proceed: bool, asked: nat)
    ensures asked <= |answers|
    ensures forall i :: 0 <= i < asked ==> Classify(answers[i]) == Again
    ensures Classify(ReadLine(answers, asked)) != Again
    ensures proceed <==> Classify(ReadLine(answers, asked)) == Yes
  {
    asked := 0;
    while true
      invariant asked <= |answers|
      invariant forall i :: 0 <= i < asked ==> Classify(answers[i]) == Again
      decreases |answers| - asked
    {
      var read := ReadLine(answers, asked);
      if read.Eof? {
        return false, asked;
      }
      var response := Lower(Utils.Strip(read.s));
      if response in ["y", "yes"] {
        return true, asked;
      } else if response in ["n", "no", ""] {
        return false, asked;
      }
      asked := asked + 1;
    }
  }

  /** An empty answer, like end-of-file, cancels. */
  lemma EmptyAnswerCancels(s: string)
    requires Utils.IsBlank(s)
    ensures Classify(Text(s)) == No
  {
  }

  // ---------------------------------------------------------------------
  // _generate_articles (src/cli.py:127-159)
  // ---------------------------------------------------------------------

  /** The titles whose result succeeded, and those whose result failed. */
  function Succeeded(results: map<string, Generator.ArticleResult>): set<string> {
    set t | t in results && results[t].success
  }

  function FailedTitles(results: map<string, Generator.ArticleResult>): set<string> {
    set t | t in results && !results[t].success
  }

  /** How `_generate_articles` ends: the two counts it prints, or exit
      status 1 when the generator raised. */
  datatype Report = Summary(successful: nat, failed: nat) | ExitFailure(message: string)

  /** Counts the successes and failures; every title is counted once. */
  method GenerateArticlesReport(outcome: Result<map<string, Generator.ArticleResult>, string>) returns (report: Report)
    ensures outcome.Err? ==> report == ExitFailure(outcome.error)
    ensures outcome.Ok? ==>
              report == Summary(|Succeeded(outcome.value)|, |FailedTitles(outcome.value)|) &&
              report.successful + report.failed == |outcome.value|
  {
    if outcome.Err? {
      return ExitFailure(outcome.error);
    }
    var results := outcome.value;
    ghost var wins, losses := Succeeded(results), FailedTitles(results);
    SplitCounts(results);
    var successful, failed := 0, 0;
    var pending := results.Keys;
    while pending != {}
      invariant pending <= results.Keys
      invariant successful == |wins - pending|
      invariant failed == |losses - pending|
      decreases pending
    {
      var title :| title in pending;
      TallyStep(wins, pending, title);
      TallyStep(losses, pending, title);
      assert title in wins <==> results[title].success;
      assert title in losses <==> !results[title].success;
      if results[title].success {
        successful := successful + 1;
      } else {
        failed := failed + 1;
      }
      pending := pending - {title};
    }
    assert wins - {} == wins && losses - {} == losses;
    return Summary(successful, failed);
  }

  /** Taking `title` out of the pending titles adds it to the counted part of `s` when it is in `s`. */
  lemma TallyStep(s: set<string>, pending: set<string>, title: string)
    requires title in pending
    ensures |s - (pending - {title})| == |s - pending| + (if title in s then 1 else 0)
  {
    if title in s {
      assert s - (pending - {title}) == (s - pending) + {title};
    } else {
      assert s - (pending - {title}) == s - pending;
    }
  }

  /** Every title is a success or a failure, never both. */
  lemma SplitCounts(results: map<string, Generator.ArticleResult>)
    ensures |Succeeded(results)| + |FailedTitles(results)| == |results|
  {
    assert Succeeded(results) + FailedTitles(results) == results.Keys;
    assert Succeeded(results) * FailedTitles(results) == {};
  }
}
