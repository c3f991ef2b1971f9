/**
 * The ASCII subset of the Python string operations the bot relies on:
 * `str.isspace`/`str.strip`, `str.lower`, `str.isdigit` and the `in`
 * substring test.
 */
module Text {

  /** Python's `str.isspace()` restricted to ASCII: \t \n \v \f \r, the
      separators \x1c-\x1f, and the space character. */
  predicate IsSpace(c: char) {
    9 <= c as int <= 13 || 28 <= c as int <= 32
  }

  /** Python's `str.isdigit()` restricted to ASCII. */
  predicate IsDigit(c: char) {
    '0' <= c <= '9'
  }

  /** Python's `str.lstrip()`: drops the leading whitespace. */
  function StripStart(s: string): (r: string)
    ensures |r| <= |s| && r == s[|s| - |r|..]
    ensures forall k :: 0 <= k < |s| - |r| ==> IsSpace(s[k])
    ensures r != [] ==> !IsSpace(r[0])
  {
    if |s| > 0 && IsSpace(s[0]) then StripStart(s[1..]) else s
  }

  /** Python's `str.rstrip()`: drops the trailing whitespace. */
  function StripEnd(s: string): (r: string)
    ensures |r| <= |s| && r == s[..|r|]
    ensures forall k :: |r| <= k < |s| ==> IsSpace(s[k])
    ensures r != [] ==> !IsSpace(r[|r| - 1])
  {
    if |s| > 0 && IsSpace(s[|s| - 1]) then StripEnd(s[..|s| - 1]) else s
  }

  /** Python's `str.strip()`. */
  function Strip(s: string): string {
    StripEnd(StripStart(s))
  }

  /** `not s.strip()`: the text is empty or whitespace only. */
  predicate IsBlank(s: string) {
    Strip(s) == []
  }

  /** A string is blank exactly when every character in it is whitespace. */
  lemma BlankIffAllSpace(s: string)
    ensures IsBlank(s) <==> forall k :: 0 <= k < |s| ==> IsSpace(s[k])
  {
    var t := StripStart(s);
    if IsBlank(s) {
      assert t == [];
    } else {
      var r := Strip(s);
      assert r[0] == t[0];
      assert s[|s| - |t|] == t[0];
    }
  }

  /** Stripping leaves non-blank text non-blank and never starts with whitespace. */
  lemma StripOfNonBlank(s: string)
    requires !IsBlank(s)
    ensures |Strip(s)| > 0 && !IsSpace(Strip(s)[0]) && !IsSpace(Strip(s)[|Strip(s)| - 1])
  {
    var t := StripStart(s);
    assert Strip(s)[0] == t[0];
  }

  /** Leading whitespace never survives `lstrip`. */
  lemma {:induction false} StripStartSkips(ws: string, t: string)
    requires forall k :: 0 <= k < |ws| ==> IsSpace(ws[k])
    ensures StripStart(ws + t) == StripStart(t)
  {
    if ws != [] {
      assert (ws + t)[0] == ws[0];
      assert StripStart(ws + t) == StripStart((ws + t)[1..]);
      assert (ws + t)[1..] == ws[1..] + t;
      assert forall k :: 0 <= k < |ws| - 1 ==> ws[1..][k] == ws[k + 1];
      StripStartSkips(ws[1..], t);
    } else {
      assert ws + t == t;
    }
  }

  /** Stripping twice is stripping once. */
  lemma StripIdempotent(s: string)
    ensures Strip(Strip(s)) == Strip(s)
  {
    var r := Strip(s);
    if r != [] {
      StripOfNonBlank(s);
    }
  }

  /** Python's `str.lower()` restricted to ASCII letters. */
  function LowerChar(c: char): (r: char)
    ensures 'A' <= c <= 'Z' ==> r as int == c as int + 32
    ensures !('A' <= c <= 'Z') ==> r == c
  {
    if 'A' <= c <= 'Z' then (c as int + 32) as char else c
  }

  function Lower(s: string): (r: string)
    ensures |r| == |s|
    ensures forall k :: 0 <= k < |s| ==> r[k] == LowerChar(s[k])
  {
    if s == [] then [] else [LowerChar(s[0])] + Lower(s[1..])
  }

  /** Lowering is compatible with concatenation. */
  lemma {:induction false} LowerConcat(a: string, b: string)
    ensures Lower(a + b) == Lower(a) + Lower(b)
  {
    if a == [] {
      assert a + b == b;
    } else {
      calc {
        Lower(a + b);
        { assert (a + b)[0] == a[0]; assert (a + b)[1..] == a[1..] + b; }
        [LowerChar(a[0])] + Lower(a[1..] + b);
        { LowerConcat(a[1..], b); }
        [LowerChar(a[0])] + (Lower(a[1..]) + Lower(b));
        ([LowerChar(a[0])] + Lower(a[1..])) + Lower(b);
        Lower(a) + Lower(b);
      }
    }
  }

  /** `needle` occurs in `s` starting at index `i`. */
  predicate OccursAt(s: string, needle: string, i: int) {
    0 <= i && i + |needle| <= |s| && s[i..i + |needle|] == needle
  }

  /** Python's `needle in s`, by a left-to-right scan. */
  function Contains(s: string, needle: string): (b: bool)
    ensures b <==> exists i :: OccursAt(s, needle, i)
    decreases |s|
  {
    if |needle| > |s| then
      assert forall i :: !OccursAt(s, needle, i);
      false
    else if s[..|needle|] == needle then
      assert OccursAt(s, needle, 0);
      true
    else
      var rest := Contains(s[1..], needle);
      assert forall i :: OccursAt(s[1..], needle, i) <==> OccursAt(s, needle, i + 1) by {
        forall i ensures OccursAt(s[1..], needle, i) <==> OccursAt(s, needle, i + 1) {
          if 0 <= i && i + |needle| <= |s| - 1 {
            assert s[1..][i..i + |needle|] == s[i + 1..i + 1 + |needle|];
          }
        }
      }
      assert !OccursAt(s, needle, 0);
      assert rest <==> exists i :: OccursAt(s, needle, i) by {
        if rest {
          var i :| OccursAt(s[1..], needle, i);
          assert OccursAt(s, needle, i + 1);
        } else {
          forall i ensures !OccursAt(s, needle, i) {
            if i > 0 {
              assert !OccursAt(s[1..], needle, i - 1);
            }
          }
        }
      }
      rest
  }

  /** An occurrence survives putting text before and after it. */
  lemma OccursInContext(p: string, s: string, q: string, needle: string, i: int)
    requires OccursAt(s, needle, i)
    ensures OccursAt(p + s + q, needle, |p| + i)
  {
    var t := p + s + q;
    assert t[|p| + i..|p| + i + |needle|] == s[i..i + |needle|] by {
      forall j | i <= j < i + |needle| ensures t[|p| + j] == s[j] { }
    }
  }
}
