/**
 * Automatic grading of a submitted answer: both texts are stripped of
 * surrounding whitespace and lower-cased, and the answer is correct exactly
 * when the results are equal; a correct answer earns the question's points.
 *
 * Whitespace is Python's `str.isspace` set. Lower-casing maps only the ASCII
 * letters A-Z; every other character is left as it is.
 */
module Grading {
  import opened Wrappers
  import opened Models

  /** The characters Python's `str.strip()` removes. */
  predicate IsSpace(c: char)
  {
    || 9 <= c as int <= 13
    || 28 <= c as int <= 32
    || c as int == 0x85 || c as int == 0xA0 || c as int == 0x1680
    || 0x2000 <= c as int <= 0x200A
    || c as int == 0x2028 || c as int == 0x2029 || c as int == 0x202F
    || c as int == 0x205F || c as int == 0x3000
  }

  predicate AllSpace(s: string)
  {
    forall i :: 0 <= i < |s| ==> IsSpace(s[i])
  }

  /** `lstrip()`: the longest suffix of `s` that does not start with whitespace. */
  function TrimStart(s: string): (r: string)
    ensures |r| <= |s| && r == s[|s| - |r|..]
    ensures AllSpace(s[..|s| - |r|])
    ensures r == [] || !IsSpace(r[0])
  {
    if |s| > 0 && IsSpace(s[0]) then
      var r := TrimStart(s[1..]);
      var n := |s| - |r|;
      assert s[1..][n - 1..] == s[n..];
      assert AllSpace(s[..n]) by {
        forall i | 0 <= i < n
          ensures IsSpace(s[..n][i])
        {
          if i > 0 {
            assert s[..n][i] == s[1..][..n - 1][i - 1];
          }
        }
      }
      r
    else s
  }

  /** `rstrip()`: the longest prefix of `s` that does not end with whitespace. */
  function TrimEnd(s: string): (r: string)
    ensures |r| <= |s| && r == s[..|r|]
    ensures AllSpace(s[|r|..])
    ensures r == [] || !IsSpace(r[|r| - 1])
  {
    if |s| > 0 && IsSpace(s[|s| - 1]) then
      var r := TrimEnd(s[..|s| - 1]);
      assert s[..|s| - 1][..|r|] == s[..|r|];
      assert AllSpace(s[|r|..]) by {
        forall i | 0 <= i < |s| - |r|
          ensures IsSpace(s[|r|..][i])
        {
          if i < |s| - 1 - |r| {
            assert s[|r|..][i] == s[..|s| - 1][|r|..][i];
          }
        }
      }
      r
    else s
  }

  /** `strip()`. */
  function Strip(s: string): (r: string)
    ensures |r| <= |s|
    ensures r == [] || (!IsSpace(r[0]) && !IsSpace(r[|r| - 1]))
  {
    var t := TrimStart(s);
    var r := TrimEnd(t);
    assert r != [] ==> r[0] == t[0];
    r
  }

  function LowerChar(c: char): char
  {
    if 'A' <= c <= 'Z' then (c as int + 32) as char else c
  }

  /** `lower()` restricted to ASCII letters. */
  function Lower(s: string): (r: string)
    ensures |r| == |s|
    ensures forall i :: 0 <= i < |s| ==> r[i] == LowerChar(s[i])
  {
    if s == [] then [] else [LowerChar(s[0])] + Lower(s[1..])
  }

  /** `s.strip().lower()`, the form both texts are compared in. */
  function Normalize(s: string): (r: string)
    ensures |r| <= |s|
    ensures r == [] || (!IsSpace(r[0]) && !IsSpace(r[|r| - 1]))
  {
    var t := Strip(s);
    if t == [] then []
    else
      LowerPreservesSpace(t[0]);
      LowerPreservesSpace(t[|t| - 1]);
      Lower(t)
  }

  predicate Matches(answer: string, key: string)
  {
    Normalize(answer) == Normalize(key)
  }

  /** Python truthiness of `question.correct_answer`: present and non-empty. */
  predicate HasAnswerKey(q: Question): (r: bool)
    ensures !r <==> q.correctAnswer in {None, Some("")}
  {
    q.correctAnswer.Some? && q.correctAnswer.value != ""
  }

  datatype Grade = Grade(isCorrect: bool, score: int)

  /**
   * The grading step of `submit_answer`: without a question or without an
   * answer key the answer is incorrect and scores 0; otherwise it is correct
   * exactly when it matches the key, and then scores the question's points.
   */
  function GradeAnswer(question: Option<Question>, text: string): (g: Grade)
    ensures g.isCorrect <==>
      question.Some? && HasAnswerKey(question.value) && Matches(text, question.value.correctAnswer.value)
    ensures g.score == if g.isCorrect then question.value.points else 0
    ensures question.None? || !HasAnswerKey(question.value) ==> g == Grade(false, 0)
  {
    if question.Some? && HasAnswerKey(question.value) then
      var correct := Normalize(text) == Normalize(question.value.correctAnswer.value);
      Grade(correct, if correct then question.value.points else 0)
    else
      Grade(false, 0)
  }

  // ---- Properties of the normal form ----

  lemma {:induction false} TrimStartOfPadded(p: string, t: string)
    requires AllSpace(p)
    ensures TrimStart(p + t) == TrimStart(t)
  {
    if p != [] {
      assert (p + t)[1..] == p[1..] + t;
      TrimStartOfPadded(p[1..], t);
    } else {
      assert p + t == t;
    }
  }

  lemma {:induction false} TrimEndOfPadded(t: string, q: string)
    requires AllSpace(q)
    ensures TrimEnd(t + q) == TrimEnd(t)
  {
    if q != [] {
      assert (t + q)[..|t + q| - 1] == t + q[..|q| - 1];
      TrimEndOfPadded(t, q[..|q| - 1]);
    } else {
      assert t + q == t;
    }
  }

  lemma TrimStartKeepsEnd(t: string)
    requires t == [] || !IsSpace(t[|t| - 1])
    ensures var r := TrimStart(t); r == [] || !IsSpace(r[|r| - 1])
  {
  }

  lemma TrimEndKeepsStart(t: string)
    requires t == [] || !IsSpace(t[0])
    ensures var r := TrimEnd(t); r == [] || !IsSpace(r[0])
  {
  }

  /** Text after a non-blank part survives `lstrip()` untouched. */
  lemma {:induction false} TrimStartAppend(t: string, q: string)
    requires TrimStart(t) != []
    ensures TrimStart(t + q) == TrimStart(t) + q
  {
    if IsSpace(t[0]) {
      assert (t + q)[1..] == t[1..] + q;
      TrimStartAppend(t[1..], q);
    }
  }

  /** Whitespace around the text does not change what `strip()` returns. */
  lemma StripOfPadded(p: string, t: string, q: string)
    requires AllSpace(p) && AllSpace(q)
    ensures Strip(p + t + q) == Strip(t)
  {
    assert p + t + q == p + (t + q);
    TrimStartOfPadded(p, t + q);
    var u := TrimStart(t);
    if u == [] {
      assert t[..|t| - |u|] == t;
      BlankPadded(t, q);
    } else {
      TrimStartAppend(t, q);
      TrimEndOfPadded(u, q);
    }
  }

  /** A blank text followed by whitespace strips to nothing. */
  lemma BlankPadded(t: string, q: string)
    requires AllSpace(t) && AllSpace(q)
    ensures TrimStart(t + q) == []
  {
    forall i | 0 <= i < |t + q|
      ensures IsSpace((t + q)[i])
    {
      if i < |t| {
        assert (t + q)[i] == t[i];
      } else {
        assert (t + q)[i] == q[i - |t|];
      }
    }
    TrimStartOfPadded(t + q, []);
    assert t + q + [] == t + q;
  }

  /** A text with no whitespace at either end is its own `strip()`. */
  lemma StripOfStripped(t: string)
    requires t == [] || (!IsSpace(t[0]) && !IsSpace(t[|t| - 1]))
    ensures Strip(t) == t
  {
  }

  lemma StripIdempotent(s: string)
    ensures Strip(Strip(s)) == Strip(s)
  {
    StripOfStripped(Strip(s));
  }

  lemma {:induction false} LowerOfLower(s: string)
    ensures Lower(Lower(s)) == Lower(s)
  {
  }

  lemma LowerPreservesSpace(c: char)
    ensures IsSpace(LowerChar(c)) <==> IsSpace(c)
  {
  }

  lemma {:induction false} TrimStartLower(s: string)
    ensures TrimStart(Lower(s)) == Lower(TrimStart(s))
  {
    if s != [] {
      LowerPreservesSpace(s[0]);
      assert Lower(s)[1..] == Lower(s[1..]);
      if IsSpace(s[0]) {
        TrimStartLower(s[1..]);
      }
    }
  }

  lemma {:induction false} TrimEndLower(s: string)
    ensures TrimEnd(Lower(s)) == Lower(TrimEnd(s))
  {
    if s != [] {
      LowerPreservesSpace(s[|s| - 1]);
      assert Lower(s)[..|s| - 1] == Lower(s[..|s| - 1]);
      if IsSpace(s[|s| - 1]) {
        TrimEndLower(s[..|s| - 1]);
      }
    }
  }

  /** Stripping and lower-casing commute. */
  lemma StripLower(s: string)
    ensures Strip(Lower(s)) == Lower(Strip(s))
  {
    TrimStartLower(s);
    TrimEndLower(TrimStart(s));
  }

  /** Normalizing twice is normalizing once. */
  lemma NormalizeIdempotent(s: string)
    ensures Normalize(Normalize(s)) == Normalize(s)
  {
    StripLower(Strip(s));
    StripIdempotent(s);
    LowerOfLower(Strip(s));
  }

  /** Grading ignores whitespace around the submitted text. */
  lemma GradeIgnoresPadding(question: Option<Question>, p: string, t: string, q: string)
    requires AllSpace(p) && AllSpace(q)
    ensures GradeAnswer(question, p + t + q) == GradeAnswer(question, t)
  {
    StripOfPadded(p, t, q);
  }

  /** Grading ignores the case of ASCII letters in the submitted text. */
  lemma GradeIgnoresCase(question: Option<Question>, a: string, b: string)
    requires Lower(a) == Lower(b)
    ensures GradeAnswer(question, a) == GradeAnswer(question, b)
  {
    StripLower(a);
    StripLower(b);
  }

  /** An answer that is its own key, up to case and padding, is correct whenever a key exists. */
  lemma KeyItselfIsCorrect(question: Question, p: string, q: string)
    requires HasAnswerKey(question) && AllSpace(p) && AllSpace(q)
    ensures GradeAnswer(Some(question), p + question.correctAnswer.value + q)
            == Grade(true, question.points)
  {
    GradeIgnoresPadding(Some(question), p, question.correctAnswer.value, q);
  }
}
