/**
 * `normalize_output`: the canonical form in which the expected output of a
 * test case and the program's actual output are compared.
 */
module Normalize {
  import opened PyText

  /**
   * Line endings are unified to `\n`, the text is stripped, every line is
   * right-stripped, and the re-joined text is stripped once more.
   */
  function NormalizeOutput(text: string): string {
    if text == [] then []
    else
      var unified := ReplaceAll(ReplaceAll(text, "\r\n", "\n"), "\r", "\n");
      var lines := Split(Strip(unified), '\n');
      var trimmed := seq(|lines|, i requires 0 <= i < |lines| => RStrip(lines[i]));
      Strip(Join("\n", trimmed))
  }

  /** A line with no trailing whitespace. */
  predicate Trimmed(line: string) {
    line == [] || !IsSpace(line[|line| - 1])
  }

  /** Every newline inside `s` ends an empty line or a line with no trailing whitespace. */
  predicate NewlinesClean(s: string) {
    forall i :: 0 < i < |s| && s[i] == '\n' ==> s[i - 1] == '\n' || !IsSpace(s[i - 1])
  }

  /** The shape of a normalized text. */
  predicate Normalized(r: string) {
    && '\r' !in r
    && (r == [] || (!IsSpace(r[0]) && !IsSpace(r[|r| - 1])))
    && NewlinesClean(r)
  }

  lemma TrimmedIffRStripFixed(line: string)
    ensures Trimmed(line) <==> RStrip(line) == line
  {
  }

  lemma NewlinesCleanSlice(s: string, a: nat, b: nat)
    requires a <= b <= |s| && NewlinesClean(s)
    ensures NewlinesClean(s[a..b])
  {
    var t := s[a..b];
    forall i | 0 < i < |t| && t[i] == '\n' ensures t[i - 1] == '\n' || !IsSpace(t[i - 1]) {
      assert t[i] == s[a + i] && t[i - 1] == s[a + i - 1];
    }
  }

  /** Joining trimmed lines with newlines leaves every newline cleanly placed. */
  lemma {:induction false} JoinTrimmedClean(ms: seq<string>)
    requires forall k :: 0 <= k < |ms| ==> Trimmed(ms[k]) && '\r' !in ms[k] && '\n' !in ms[k]
    ensures NewlinesClean(Join("\n", ms))
    ensures '\r' !in Join("\n", ms)
    decreases |ms|
  {
    if |ms| > 1 {
      JoinTrimmedClean(ms[1..]);
      var rest := Join("\n", ms[1..]);
      var j := ms[0] + "\n" + rest;
      assert Join("\n", ms) == j;
      assert forall i :: 0 <= i < |ms[0]| ==> j[i] == ms[0][i];
      forall i | 0 < i < |j| && j[i] == '\n' ensures j[i - 1] == '\n' || !IsSpace(j[i - 1]) {
        if i == |ms[0]| {
          assert ms[0] == [] || j[i - 1] == ms[0][|ms[0]| - 1];
        } else if i > |ms[0]| + 1 {
          assert j[i] == rest[i - |ms[0]| - 1] && j[i - 1] == rest[i - |ms[0]| - 2];
        }
      }
    }
  }

  /** The `i`-th piece of `split` is cleanly ended when the text is. */
  lemma {:induction false} SplitLinesTrimmed(s: string, k: nat)
    requires NewlinesClean(s) && Trimmed(s) && k < |Split(s, '\n')|
    ensures Trimmed(Split(s, '\n')[k])
    decreases |s|
  {
    if s != [] {
      NewlinesCleanSlice(s, 1, |s|);
      var t := s[1..];
      assert Trimmed(t);
      if s[0] == '\n' {
        if k > 0 {
          SplitLinesTrimmed(t, k - 1);
        }
      } else {
        var rest := Split(t, '\n');
        if k > 0 {
          SplitLinesTrimmed(t, k);
        } else {
          SplitLinesTrimmed(t, 0);
          if rest[0] == [] {
            if t != [] {
              assert t[0] == '\n';
              assert s[1] == '\n';
            }
          } else {
            assert ([s[0]] + rest[0])[|rest[0]|] == rest[0][|rest[0]| - 1];
          }
        }
      }
    }
  }

  /**
   * Property of the result: no carriage return survives, the text has no
   * whitespace at either end, and no newline follows trailing whitespace.
   */
  lemma NormalizeOutputShape(text: string)
    ensures Normalized(NormalizeOutput(text))
  {
    if text != [] {
      var unified := ReplaceAll(ReplaceAll(text, "\r\n", "\n"), "\r", "\n");
      ReplaceCharRemoves(ReplaceAll(text, "\r\n", "\n"), '\r', '\n');
      var stripped := Strip(unified);
      var a0, b0 := StripIsSlice(unified);
      assert '\r' !in stripped;
      var lines := Split(stripped, '\n');
      var trimmed := seq(|lines|, i requires 0 <= i < |lines| => RStrip(lines[i]));
      TrimmedPieces(stripped, trimmed);
      JoinTrimmedClean(trimmed);
      var joined := Join("\n", trimmed);
      var a, b := StripIsSlice(joined);
      NewlinesCleanSlice(joined, a, b);
    }
  }

  /** The right-stripped pieces of a text without carriage returns are trimmed single lines. */
  lemma TrimmedPieces(s: string, trimmed: seq<string>)
    requires '\r' !in s
    requires |trimmed| == |Split(s, '\n')|
    requires forall k :: 0 <= k < |trimmed| ==> trimmed[k] == RStrip(Split(s, '\n')[k])
    ensures forall k :: 0 <= k < |trimmed| ==> Trimmed(trimmed[k]) && '\r' !in trimmed[k] && '\n' !in trimmed[k]
  {
    var lines := Split(s, '\n');
    forall k | 0 <= k < |trimmed| ensures Trimmed(trimmed[k]) && '\r' !in trimmed[k] && '\n' !in trimmed[k] {
      if '\r' in trimmed[k] {
        assert '\r' in lines[k];
        SplitChars(s, '\n', k, '\r');
      }
    }
  }

  /** Every line of a normalized text is already right-stripped. */
  lemma NormalizeOutputLines(text: string)
    ensures forall k :: 0 <= k < |Split(NormalizeOutput(text), '\n')| ==>
              RStrip(Split(NormalizeOutput(text), '\n')[k]) == Split(NormalizeOutput(text), '\n')[k]
  {
    var r := NormalizeOutput(text);
    NormalizeOutputShape(text);
    forall k | 0 <= k < |Split(r, '\n')| ensures RStrip(Split(r, '\n')[k]) == Split(r, '\n')[k] {
      SplitLinesTrimmed(r, k);
    }
  }

  /** A normalized text is left as it is. */
  lemma NormalizeOutputFixes(r: string)
    requires Normalized(r)
    ensures NormalizeOutput(r) == r
  {
    if r != [] {
      ReplaceAbsent(r, "\r\n", "\n");
      ReplaceAbsent(r, "\r", "\n");
      StripOfTrimmed(r);
      var lines := Split(r, '\n');
      var trimmed := seq(|lines|, i requires 0 <= i < |lines| => RStrip(lines[i]));
      forall k | 0 <= k < |lines| ensures trimmed[k] == lines[k] {
        SplitLinesTrimmed(r, k);
      }
      assert trimmed == lines;
      JoinSplit(r, '\n');
    }
  }

  /** Normalizing twice is normalizing once. */
  lemma NormalizeOutputIdempotent(text: string)
    ensures NormalizeOutput(NormalizeOutput(text)) == NormalizeOutput(text)
  {
    NormalizeOutputShape(text);
    NormalizeOutputFixes(NormalizeOutput(text));
  }
}
