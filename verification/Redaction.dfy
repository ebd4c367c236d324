/** src/wt_security.c, wtRedactSecrets: recognised secret prefixes and the words they start are replaced by a marker. */
module Redaction {
  import opened Options
  import opened Json

  const MARKER: string := "[REDACTED]"

  // looksSecretAt: strncmp against five prefixes.
  predicate LooksSecret(s: string) {
    "wt_" <= s || "ghp_" <= s || "github_pat_" <= s || "AKIA" <= s || "-----BEGIN " <= s
  }

  // Where the skipped word ends.
  predicate EndsWord(c: char) { IsSpace(c) || c == '"' || c == '\'' || c == ',' || c == '}' }

  function SkipWord(s: string): (rest: string)
    ensures |rest| <= |s|
    ensures rest != "" ==> EndsWord(rest[0])
    ensures s != "" && !EndsWord(s[0]) ==> |rest| < |s|
  {
    if s != "" && !EndsWord(s[0]) then SkipWord(s[1..]) else s
  }

  lemma SecretStart(s: string)
    ensures LooksSecret(s) ==> s != "" && !EndsWord(s[0]) && s[0] in ['w', 'g', 'A', '-']
    ensures LooksSecret(s) && s[0] == 'A' ==> |s| > 1 && s[1] == 'K'
  {
    if LooksSecret(s) {
      assert "wt_"[0] == 'w' && "ghp_"[0] == 'g' && "github_pat_"[0] == 'g' && "AKIA"[0] == 'A' && "AKIA"[1] == 'K';
      assert "-----BEGIN "[0] == '-';
    }
  }

  function Redacted(s: string): string
    decreases |s|
  {
    if s == "" then ""
    else if LooksSecret(s) then SecretStart(s); MARKER + Redacted(SkipWord(s))
    else [s[0]] + Redacted(s[1..])
  }

  lemma RedactedUnfolds(s: string)
    ensures s == "" ==> Redacted(s) == ""
    ensures LooksSecret(s) ==> Redacted(s) == MARKER + Redacted(SkipWord(s)) && |SkipWord(s)| < |s|
    ensures s != "" && !LooksSecret(s) ==> Redacted(s) == [s[0]] + Redacted(s[1..])
  {
    hide LooksSecret, SkipWord;
    SecretStart(s);
  }

  method SkipWordFrom(input: string, from: nat) returns (p: nat)
    requires from <= |input|
    ensures from <= p <= |input| && input[p..] == SkipWord(input[from..])
  {
    p := from;
    while p < |input| && !EndsWord(input[p])
      invariant from <= p <= |input|
      invariant SkipWord(input[from..]) == SkipWord(input[p..])
    {
      assert input[p..][1..] == input[p + 1..];
      p := p + 1;
    }
  }

  // wtRedactSecrets on a non-null input: fails when the copy would come within one byte of the buffer's end.
  method RedactSecrets(input: string, outputSize: nat) returns (r: Option<string>)
    ensures r == if outputSize > 0 && (Redacted(input) == "" || |Redacted(input)| + 1 < outputSize)
                 then Some(Redacted(input)) else None
  {
    if outputSize == 0 {
      return None;
    }
    hide Redacted, LooksSecret, SkipWord;
    var output := "";
    var p := 0;
    assert input[0..] == input;
    assert "" + Redacted(input) == Redacted(input);
    while p < |input|
      invariant p <= |input|
      invariant output + Redacted(input[p..]) == Redacted(input)
      invariant output == "" || |output| + 1 < outputSize
      decreases |input| - p
    {
      ghost var here := input[p..];
      RedactedUnfolds(here);
      if LooksSecret(input[p..]) {
        if |output| + |MARKER| + 1 >= outputSize {
          return None;
        }
        p := SkipWordFrom(input, p);
        assert output + (MARKER + Redacted(input[p..])) == (output + MARKER) + Redacted(input[p..]);
        output := output + MARKER;
      } else {
        if |output| + 2 >= outputSize {
          return None;
        }
        assert here[1..] == input[p + 1..];
        assert output + ([here[0]] + Redacted(here[1..])) == (output + [here[0]]) + Redacted(here[1..]);
        output := output + [input[p]];
        p := p + 1;
      }
    }
    RedactedUnfolds("");
    assert input[p..] == "" && output + "" == output;
    return Some(output);
  }

  // A recognised prefix starts nowhere in the text.
  predicate NoSecret(s: string) { forall i :: 0 <= i < |s| ==> !LooksSecret(s[i..]) }

  lemma NoSecretTail(s: string)
    requires s != "" && NoSecret(s)
    ensures NoSecret(s[1..])
  {
    forall i | 0 <= i < |s| - 1
      ensures !LooksSecret(s[1..][i..])
    {
      assert s[1..][i..] == s[i + 1..];
    }
  }

  lemma NoSecretCons(s: string)
    requires s != "" && !LooksSecret(s) && NoSecret(s[1..])
    ensures NoSecret(s)
  {
    forall i | 0 <= i < |s|
      ensures !LooksSecret(s[i..])
    {
      if i == 0 {
        assert s[0..] == s;
      } else {
        assert s[1..][i - 1..] == s[i..];
      }
    }
  }

  // Putting text without a secret behind a marker makes none.
  lemma {:induction false} NoSecretBehindMarker(m: string, s: string)
    requires |m| <= |MARKER| && m == MARKER[|MARKER| - |m|..]
    requires NoSecret(s)
    ensures NoSecret(m + s)
  {
    var t := m + s;
    if m == "" {
      assert t == s;
    } else {
      var at := |MARKER| - |m|;
      assert m[0] == MARKER[at];
      assert m[1..] == MARKER[at + 1..];
      NoSecretBehindMarker(m[1..], s);
      assert t[1..] == m[1..] + s;
      assert !LooksSecret(t) by {
        SecretStart(t);
        assert t[0] == MARKER[at];
        if at == 4 {
          assert t[1] == MARKER[5];
        }
      }
      NoSecretCons(t);
    }
  }

  // The output starts with a secret prefix p only where the input does: a marker inside cannot complete one.
  lemma {:induction false} PrefixOfRedacted(p: string, s: string)
    requires '[' !in p
    ensures p <= Redacted(s) ==> p <= s
    decreases |p|
  {
    var r := Redacted(s);
    if p != "" {
      PrefixHead(p, r);
      if !LooksSecret(s) && s != "" && p <= r {
        assert r[1..] == Redacted(s[1..]);
        PrefixOfRedacted(p[1..], s[1..]);
        assert p == [p[0]] + p[1..] && s == [s[0]] + s[1..];
      }
    }
  }

  lemma PrefixHead(p: string, s: string)
    requires p != ""
    ensures p <= s ==> s != "" && p[0] == s[0] && p[1..] <= s[1..]
  {
  }

  /** No recognised secret prefix is left anywhere in the output, not even across the edges of a marker. */
  lemma {:induction false} RedactedHasNoSecret(s: string)
    ensures NoSecret(Redacted(s))
    decreases |s|
  {
    if s == "" {
    } else if LooksSecret(s) {
      SecretStart(s);
      RedactedHasNoSecret(SkipWord(s));
      NoSecretBehindMarker(MARKER, Redacted(SkipWord(s)));
    } else {
      RedactedHasNoSecret(s[1..]);
      var r := Redacted(s);
      assert r[1..] == Redacted(s[1..]);
      PrefixOfRedacted("wt_", s);
      PrefixOfRedacted("ghp_", s);
      PrefixOfRedacted("github_pat_", s);
      PrefixOfRedacted("AKIA", s);
      PrefixOfRedacted("-----BEGIN ", s);
      NoSecretCons(r);
    }
  }

  /** Redaction leaves a text alone exactly when it holds no recognised secret prefix. */
  lemma {:induction false} RedactedIsIdentity(s: string)
    ensures Redacted(s) == s <==> NoSecret(s)
    decreases |s|
  {
    if NoSecret(s) {
      if s != "" {
        assert s[0..] == s;
        NoSecretTail(s);
        RedactedIsIdentity(s[1..]);
      }
    } else {
      RedactedHasNoSecret(s);
    }
  }

  /** Redacting twice is redacting once. */
  lemma RedactedTwice(s: string)
    ensures Redacted(Redacted(s)) == Redacted(s)
  {
    RedactedHasNoSecret(s);
    RedactedIsIdentity(Redacted(s));
  }

  // The text between the markers is the input's, in order: cut the input where a secret starts and resume behind its word.
  lemma {:induction false} RedactedKeepsPrefix(u: string, s: string)
    requires forall i :: 0 <= i < |u| ==> !LooksSecret((u + s)[i..])
    ensures Redacted(u + s) == u + Redacted(s)
  {
    hide LooksSecret, Redacted;
    var t := u + s;
    if u == "" {
      assert t == s;
      assert "" + Redacted(s) == Redacted(s);
    } else {
      RedactedUnfolds(t);
      assert t[0..] == t;
      assert t[1..] == u[1..] + s;
      forall i | 0 <= i < |u[1..]|
        ensures !LooksSecret((u[1..] + s)[i..])
      {
        assert (u[1..] + s)[i..] == t[i + 1..];
      }
      RedactedKeepsPrefix(u[1..], s);
      assert [u[0]] + (u[1..] + Redacted(s)) == u + Redacted(s);
    }
  }

  // ----- What becomes of a secret -----

  // One of the five prefixes stands at the start.
  predicate Recognised(s: string) {
    exists p :: p in ["wt_", "ghp_", "github_pat_", "AKIA", "-----BEGIN "] && p <= s
  }

  // A space or one of the control characters 9 to 13, a quote, an apostrophe, a comma or a closing brace.
  predicate Delimits(c: char) {
    c == ' ' || 9 <= c as int <= 13 || c == '"' || c == '\'' || c == ',' || c == '}'
  }

  lemma RecognisedIff(s: string)
    ensures Recognised(s) <==> LooksSecret(s)
  {
    var prefixes := ["wt_", "ghp_", "github_pat_", "AKIA", "-----BEGIN "];
    assert prefixes[0] in prefixes && prefixes[1] in prefixes && prefixes[2] in prefixes && prefixes[3] in prefixes && prefixes[4] in prefixes;
  }

  lemma DelimitsIff(c: char)
    ensures Delimits(c) <==> EndsWord(c)
  {
  }

  lemma {:induction false} SkipWordIs(x: string, rest: string)
    requires forall i :: 0 <= i < |x| ==> !Delimits(x[i])
    requires rest == "" || Delimits(rest[0])
    ensures SkipWord(x + rest) == rest
  {
    if x == "" {
      assert x + rest == rest;
      if rest != "" {
        DelimitsIff(rest[0]);
      }
    } else {
      DelimitsIff(x[0]);
      assert (x + rest)[1..] == x[1..] + rest;
      SkipWordIs(x[1..], rest);
    }
  }

  /**
   * A recognised word goes as a whole: whatever stands in front of it without a secret is kept, the word up to the next
   * delimiter becomes the marker, and redaction goes on behind it.
   */
  lemma RedactedWord(u: string, x: string, rest: string)
    requires forall i :: 0 <= i < |u| ==> !Recognised((u + (x + rest))[i..])
    requires Recognised(x + rest) && (forall i :: 0 <= i < |x| ==> !Delimits(x[i])) && (rest == "" || Delimits(rest[0]))
    ensures Redacted(u + (x + rest)) == u + ("[REDACTED]" + Redacted(rest))
  {
    hide LooksSecret, Recognised, SkipWord, Redacted;
    forall i | 0 <= i < |u|
      ensures !LooksSecret((u + (x + rest))[i..])
    {
      RecognisedIff((u + (x + rest))[i..]);
    }
    RedactedKeepsPrefix(u, x + rest);
    RecognisedIff(x + rest);
    RedactedUnfolds(x + rest);
    SkipWordIs(x, rest);
  }

  /** So nothing is left of a token that starts with one of the four prefixes without white space. */
  lemma RedactedToken(u: string, p: string, w: string, rest: string)
    requires forall i :: 0 <= i < |u| ==> !Recognised((u + ((p + w) + rest))[i..])
    requires p in ["wt_", "ghp_", "github_pat_", "AKIA"]
    requires (forall i :: 0 <= i < |w| ==> !Delimits(w[i])) && (rest == "" || Delimits(rest[0]))
    ensures Redacted(u + ((p + w) + rest)) == u + ("[REDACTED]" + Redacted(rest))
  {
    hide Redacted, Delimits;
    TokenPrefixHasNoDelimiter(p);
    assert p <= (p + w) + rest;
    assert p in ["wt_", "ghp_", "github_pat_", "AKIA", "-----BEGIN "];
    RedactedWord(u, p + w, rest);
  }

  lemma TokenPrefixHasNoDelimiter(p: string)
    requires p in ["wt_", "ghp_", "github_pat_", "AKIA"]
    ensures forall i :: 0 <= i < |p| ==> !Delimits(p[i])
  {
  }

  /** The fifth prefix ends in a space, so only its own word goes: what follows the space is redacted for itself. */
  lemma RedactedKeyHeader(u: string, rest: string)
    requires forall i :: 0 <= i < |u| ==> !Recognised((u + ("-----BEGIN" + (" " + rest)))[i..])
    ensures Redacted(u + ("-----BEGIN" + (" " + rest))) == u + ("[REDACTED]" + Redacted(" " + rest))
  {
    hide Redacted;
    assert "-----BEGIN" + (" " + rest) == "-----BEGIN " + rest;
    assert "-----BEGIN " in ["wt_", "ghp_", "github_pat_", "AKIA", "-----BEGIN "];
    KeyHeaderHasNoDelimiter();
    RedactedWord(u, "-----BEGIN", " " + rest);
  }

  lemma KeyHeaderHasNoDelimiter()
    ensures (forall i :: 0 <= i < |"-----BEGIN"| ==> !Delimits("-----BEGIN"[i])) && Delimits(' ')
  {
  }
}
