/** The delta chunks of a validated answer. */
module Chunker {
  import opened Common
  import opened Text

  predicate Word(w: string) {
    ' ' !in w
  }

  /** text.split(" ") */
  function Split(t: string): (words: seq<string>)
    ensures words != [] && forall i :: 0 <= i < |words| ==> Word(words[i])
  {
    if t == "" then [""]
    else
      var rest := Split(t[1..]);
      if t[0] == ' ' then [""] + rest else [[t[0]] + rest[0]] + rest[1..]
  }

  function Concat(parts: seq<string>): string {
    if parts == [] then "" else parts[0] + Concat(parts[1..])
  }

  function NonEmpty(words: seq<string>): (n: nat)
    ensures n <= |words|
  {
    if words == [] then 0 else (if words[0] == "" then 0 else 1) + NonEmpty(words[1..])
  }

  /** The words a reader sees in a piece of text. */
  function WordCount(t: string): nat {
    NonEmpty(Split(t))
  }

  lemma {:induction false} JoinSplit(t: string)
    ensures Join(" ", Split(t)) == t
  {
    if t != "" {
      var rest := Split(t[1..]);
      JoinSplit(t[1..]);
      if t[0] == ' ' {
        assert Split(t)[1..] == rest;
        assert t == [t[0]] + t[1..];
      } else {
        assert Split(t)[1..] == rest[1..];
        assert t == [t[0]] + Join(" ", rest);
      }
    }
  }

  lemma {:induction false} JoinAppend(a: seq<string>, b: seq<string>)
    requires a != [] && b != []
    ensures Join(" ", a + b) == Join(" ", a) + " " + Join(" ", b)
  {
    assert (a + b)[1..] == a[1..] + b;
    if |a| > 1 {
      JoinAppend(a[1..], b);
    } else {
      assert a[1..] + b == b;
    }
  }

  lemma {:induction false} SplitWord(w: string)
    requires Word(w)
    ensures Split(w) == [w]
  {
    if w != "" {
      assert w[0] in w;
      SplitWord(w[1..]);
      assert w == [w[0]] + w[1..];
    }
  }

  lemma {:induction false} SplitFirst(w: string, t: string)
    requires Word(w)
    ensures Split(w + " " + t) == [w] + Split(t)
  {
    if w == "" {
      assert (w + " " + t)[1..] == t;
    } else {
      assert w[0] in w;
      assert (w + " " + t)[1..] == w[1..] + " " + t;
      SplitFirst(w[1..], t);
      assert w == [w[0]] + w[1..];
    }
  }

  lemma {:induction false} SplitJoin(words: seq<string>)
    requires words != [] && forall i :: 0 <= i < |words| ==> Word(words[i])
    ensures Split(Join(" ", words)) == words
  {
    if |words| == 1 {
      SplitWord(words[0]);
    } else {
      SplitFirst(words[0], Join(" ", words[1..]));
      SplitJoin(words[1..]);
    }
  }

  lemma {:induction false} ConcatNext(parts: seq<string>, last: string)
    ensures Concat(parts + [last]) == Concat(parts) + last
  {
    if parts == [] {
      assert parts + [last] == [last];
      assert Concat([last]) == last + Concat([]);
    } else {
      assert (parts + [last])[1..] == parts[1..] + [last];
      ConcatNext(parts[1..], last);
    }
  }

  /** A chunk shows no more words than it was cut from, with or without its leading space. */
  lemma {:induction false} ChunkIsSmall(words: seq<string>)
    requires words != [] && forall i :: 0 <= i < |words| ==> Word(words[i])
    ensures forall start: nat :: WordCount(Prefix(start) + Join(" ", words)) <= |words|
  {
    SplitJoin(words);
    SplitFirst("", Join(" ", words));
    assert "" + " " + Join(" ", words) == " " + Join(" ", words);
    assert "" + Join(" ", words) == Join(" ", words);
    assert ([""] + words)[1..] == words;
  }

  function Prefix(start: nat): string {
    if start == 0 then "" else " "
  }

  /** The chunk of the words from `start` to `end` extends the text spelled so far. */
  lemma {:induction false} NextChunk(words: seq<string>, start: nat, end: nat)
    requires start < end <= |words|
    ensures Join(" ", words[..end]) == Join(" ", words[..start]) + (Prefix(start) + Join(" ", words[start..end]))
  {
    if start == 0 {
      assert words[start..end] == words[..end] && words[..start] == [];
    } else {
      assert words[..end] == words[..start] + words[start..end];
      JoinAppend(words[..start], words[start..end]);
    }
  }

  lemma {:induction false} OneMore(k: int, step: int)
    ensures (k + 1) * step == k * step + step
  {
  }

  function Stop(start: nat, step: nat, n: nat): nat {
    if start + step < n then start + step else n
  }

  /** The loop, for a positive step. */
  method Chunks(words: seq<string>, step: nat) returns (chunks: seq<string>)
    requires step > 0 && words != [] && forall i :: 0 <= i < |words| ==> Word(words[i])
    ensures Concat(chunks) == Join(" ", words)
    ensures (|chunks| - 1) * step < |words| <= |chunks| * step
    ensures forall i :: 0 <= i < |chunks| ==> WordCount(chunks[i]) <= step
  {
    chunks := [];
    var start := 0;
    while start < |words|
      invariant start == |chunks| * step && start - step < |words|
      invariant Concat(chunks) == Join(" ", words[..Stop(start, 0, |words|)])
      invariant forall i :: 0 <= i < |chunks| ==> WordCount(chunks[i]) <= step
      decreases |words| - start
    {
      var end := Stop(start, step, |words|);
      var chunk := Prefix(start) + Join(" ", words[start..end]);
      ChunkIsSmall(words[start..end]);
      ConcatNext(chunks, chunk);
      NextChunk(words, start, end);
      OneMore(|chunks|, step);
      chunks := chunks + [chunk];
      start := start + step;
    }
    OneMore(|chunks| - 1, step);
    assert words[..|words|] == words;
  }

  /**
   * The chunks spell the text, none shows more words than asked for, and no chunk is superfluous.
   * A step of zero is the range error; a negative step leaves no chunk, so the text is sent whole.
   */
  method ChunkAnswer(text: string, wordsPerChunk: int) returns (result: Option<seq<string>>)
    ensures result.None? <==> wordsPerChunk == 0
    ensures result.Some? ==> Concat(result.value) == text
    ensures wordsPerChunk < 0 ==> result == Some([text])
    ensures wordsPerChunk > 0 ==>
              && (|result.value| - 1) * wordsPerChunk < |Split(text)| <= |result.value| * wordsPerChunk
              && forall i :: 0 <= i < |result.value| ==> WordCount(result.value[i]) <= wordsPerChunk
  {
    if wordsPerChunk == 0 {
      return None;
    }
    if wordsPerChunk < 0 {
      assert Concat([text]) == text + Concat([]);
      return Some([text]);
    }
    var chunks := Chunks(Split(text), wordsPerChunk);
    JoinSplit(text);
    result := Some(chunks);
  }
}
