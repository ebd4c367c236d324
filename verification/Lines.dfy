/** fgets: how the log readers cut a file's text into pieces. */
module Lines {
  // The position of the first newline, or the length.
  function NewlineAt(s: string): (n: nat)
    ensures n <= |s| && '\n' !in s[..n]
    ensures n < |s| ==> s[n] == '\n'
  {
    if s == "" || s[0] == '\n' then 0 else 1 + NewlineAt(s[1..])
  }

  // One fgets into a buffer of the given size: up to and with the newline, at most size - 1 characters.
  function Chunk(s: string, size: nat): (c: string)
    requires size >= 2
    ensures c <= s && (s != "" ==> c != "") && |c| < size
  {
    var n := NewlineAt(s);
    var whole := if n < |s| then n + 1 else n;
    if whole < size then s[..whole] else s[..size - 1]
  }

  predicate EndsLine(s: string) { s == "" || s[|s| - 1] == '\n' }

  lemma {:induction false} NewlineAtIs(s: string, n: nat)
    requires n <= |s| && '\n' !in s[..n] && (n < |s| ==> s[n] == '\n')
    ensures NewlineAt(s) == n
  {
    if n > 0 {
      assert s[0] == s[..n][0];
      assert s[1..][..n - 1] == s[..n][1..];
      NewlineAtIs(s[1..], n - 1);
    }
  }

  // A line that fits is one piece, with its newline.
  lemma ChunkOfLine(line: string, rest: string, size: nat)
    requires size >= 2 && '\n' !in line && |line| + 1 < size
    ensures Chunk(line + "\n" + rest, size) == line + "\n"
  {
    var s := line + "\n" + rest;
    assert s[..|line|] == line && s[|line|] == '\n';
    NewlineAtIs(s, |line|);
    assert s[..|line| + 1] == line + "\n";
  }

  // A line whose newline no longer fits is cut before it.
  lemma ChunkOfFullLine(line: string, rest: string, size: nat)
    requires size >= 2 && '\n' !in line && |line| + 1 == size
    ensures Chunk(line + "\n" + rest, size) == line
  {
    var s := line + "\n" + rest;
    assert s[..|line|] == line && s[|line|] == '\n';
    NewlineAtIs(s, |line|);
  }

  // Text that ends with a newline is cut the same whatever follows it.
  lemma ChunkOfWholeLines(s: string, more: string, size: nat)
    requires size >= 2 && s != "" && EndsLine(s)
    ensures Chunk(s + more, size) == Chunk(s, size)
    ensures EndsLine(s[|Chunk(s, size)|..])
  {
    var n := NewlineAt(s);
    assert s[|s| - 1] in s && s[..|s|] == s;
    assert (s + more)[..n] == s[..n];
    NewlineAtIs(s + more, n);
    assert Chunk(s + more, size) == Chunk(s, size);
    var c := Chunk(s, size);
    if |c| < |s| {
      assert s[|c|..][|s| - |c| - 1] == s[|s| - 1];
    }
  }
}
