/**
 * The derived "TRIP ID New" column: `trip_id.replace(/\|.*?\|/g, "|X|")`
 * followed by "_" and the operational date.
 */
module TripIds {
  import opened Wrappers
  import opened Strings

  /** No character of `s[from..to]` is a line terminator (which `.` does not match). */
  predicate NoLineTerminator(s: string, from: nat, to: nat)
    requires from <= to <= |s|
  {
    forall k :: from <= k < to ==> !IsLineTerminator(s[k])
  }

  predicate NoPipe(s: string)
  {
    forall k :: 0 <= k < |s| ==> s[k] != '|'
  }

  /**
   * Where the lazy `.*?\|` that follows an opening pipe ends, scanning from
   * `from`: the first `|`, provided no line terminator comes before it.
   */
  function ClosingPipe(s: string, from: nat): (r: Option<nat>)
    requires from <= |s|
    ensures r.Some? ==> (from <= r.value < |s| && s[r.value] == '|'
      && NoLineTerminator(s, from, r.value)
      && forall k :: from <= k < r.value ==> s[k] != '|')
    ensures r.None? ==> forall j :: from <= j < |s| && s[j] == '|' ==> !NoLineTerminator(s, from, j)
    decreases |s| - from
  {
    if from == |s| then None
    else if s[from] == '|' then Some(from)
    else if IsLineTerminator(s[from]) then None
    else ClosingPipe(s, from + 1)
  }

  /**
   * The global replacement of `\|.*?\|` by `|X|`: each `|` that opens a match
   * swallows everything up to the next `|`; an opening `|` without a closing
   * one on the same line is kept and scanning resumes after it.
   */
  function RewritePipes(s: string): (r: string)
    decreases |s|
  {
    if |s| == 0 then ""
    else if s[0] != '|' then [s[0]] + RewritePipes(s[1..])
    else match ClosingPipe(s, 1)
      case Some(j) => "|X|" + RewritePipes(s[j + 1..])
      case None => "|" + RewritePipes(s[1..])
  }

  /** "TRIP ID New". */
  function TripIdNew(tripId: string, date: string): (r: string)
    ensures EndsWith(r, "_" + date)
    ensures NoPipe(tripId) ==> r == tripId + "_" + date
  {
    RewritePipesNoPipe(tripId);
    RewritePipes(tripId) + "_" + date
  }

  /** A trip id without a pipe is left as it is. */
  lemma {:induction false} RewritePipesNoPipe(s: string)
    ensures NoPipe(s) ==> RewritePipes(s) == s
    decreases |s|
  {
    if |s| > 0 && NoPipe(s) {
      assert NoPipe(s[1..]);
      RewritePipesNoPipe(s[1..]);
      assert s == [s[0]] + s[1..];
    }
  }

  /**
   * Text before the first pipe is kept, and the text from that pipe to the
   * next one, on one line, becomes `|X|`; the rest is rewritten after it.
   */
  lemma {:induction false} RewritePipesSegment(a: string, m: string, b: string)
    requires NoPipe(a) && NoPipe(m)
    requires forall k :: 0 <= k < |m| ==> !IsLineTerminator(m[k])
    ensures RewritePipes(a + "|" + m + "|" + b) == a + "|X|" + RewritePipes(b)
    decreases |a|
  {
    var s := a + "|" + m + "|" + b;
    if |a| == 0 {
      assert s == "|" + m + "|" + b;
      assert s[|m| + 1] == '|';
      ClosingPipeFinds(s, 1, |m| + 1);
      assert s[|m| + 2..] == b;
    } else {
      assert s[0] == a[0];
      assert s[1..] == a[1..] + "|" + m + "|" + b;
      RewritePipesSegment(a[1..], m, b);
      assert a == [a[0]] + a[1..];
    }
  }

  /** An opening pipe with no closing pipe after it is kept, and so is the rest. */
  lemma {:induction false} RewritePipesUnclosed(a: string, t: string)
    requires NoPipe(a) && NoPipe(t)
    ensures RewritePipes(a + "|" + t) == a + "|" + t
    decreases |a|
  {
    var s := a + "|" + t;
    if |a| == 0 {
      assert s == "|" + t;
      assert s[1..] == t;
      RewritePipesNoPipe(t);
    } else {
      assert s[1..] == a[1..] + "|" + t;
      RewritePipesUnclosed(a[1..], t);
      assert a == [a[0]] + a[1..];
    }
  }

  /** Text without a pipe is copied as it is, and what follows is rewritten after it. */
  lemma {:induction false} RewritePipesKeepsPrefix(p: string, b: string)
    requires NoPipe(p)
    ensures RewritePipes(p + b) == p + RewritePipes(b)
    decreases |p|
  {
    if |p| > 0 {
      var s := p + b;
      assert s[0] == p[0] && s[1..] == p[1..] + b;
      RewritePipesKeepsPrefix(p[1..], b);
      assert p == [p[0]] + p[1..];
    } else {
      assert p + b == b;
    }
  }

  /**
   * A line terminator before the next pipe ends the match that an opening
   * pipe starts: that pipe and the line are kept, and the rest is rewritten
   * after them.
   */
  lemma RewritePipesLineBreak(a: string, m: string, c: char, b: string)
    requires NoPipe(a) && NoPipe(m) && IsLineTerminator(c)
    requires forall k :: 0 <= k < |m| ==> !IsLineTerminator(m[k])
    ensures RewritePipes(a + "|" + m + [c] + b) == a + "|" + m + [c] + RewritePipes(b)
  {
    var t := "|" + m + [c] + b;
    RewritePipesOpenLine(m, c, b);
    assert a + "|" + m + [c] + b == a + t;
    RewritePipesKeepsPrefix(a, t);
  }

  lemma RewritePipesOpenLine(m: string, c: char, b: string)
    requires NoPipe(m) && IsLineTerminator(c)
    requires forall k :: 0 <= k < |m| ==> !IsLineTerminator(m[k])
    ensures RewritePipes("|" + m + [c] + b) == "|" + m + [c] + RewritePipes(b)
  {
    var t := "|" + m + [c] + b;
    assert t[|m| + 1] == c;
    ClosingPipeStops(t, 1, |m| + 1);
    assert t[1..] == (m + [c]) + b;
    assert NoPipe(m + [c]);
    RewritePipesKeepsPrefix(m + [c], b);
  }

  lemma {:induction false} ClosingPipeStops(s: string, from: nat, j: nat)
    requires from <= j < |s| && IsLineTerminator(s[j])
    requires forall k :: from <= k < j ==> s[k] != '|'
    ensures ClosingPipe(s, from) == None
    decreases j - from
  {
    if from < j {
      ClosingPipeStops(s, from + 1, j);
    }
  }

  lemma {:induction false} ClosingPipeFinds(s: string, from: nat, j: nat)
    requires from <= j < |s| && s[j] == '|'
    requires forall k :: from <= k < j ==> s[k] != '|' && !IsLineTerminator(s[k])
    ensures ClosingPipe(s, from) == Some(j)
    decreases j - from
  {
    if from < j {
      ClosingPipeFinds(s, from + 1, j);
    }
  }

  lemma TripIdNewExample()
    ensures TripIdNew("A|1|B", "2024-01-01") == "A|X|B_2024-01-01"
  {
    var a, m, b := "A", "1", "B";
    assert NoPipe(a) && NoPipe(m) && NoPipe(b);
    RewritePipesSegment(a, m, b);
    RewritePipesNoPipe(b);
    assert a + "|" + m + "|" + b == "A|1|B";
    assert RewritePipes("A|1|B") == "A|X|B";
  }
}
