/**
 Chunk ids.  SHA-256 is taken as collision free: a hashed id is its preimage, and is no plain id.
 */
module ChunkIds {
  import opened Text

  datatype ChunkId = Plain(id: string) | Sha256Hex(preimage: string)

  /** One record of the ingest: an input line, or one of the chunks it is split into. */
  datatype TextChunkLine = TextChunkLine(
    chunkID: ChunkId, text: string, docID: string, title: string, url: string,
    pageNo: int, offset: int, chunkNo: int, entityKeys: seq<string>,
    sourceType: string, lang: string, tsLegacy: int, jobID: string, taskID: string,
    extraInfo: string, createdMs: int, updatedMs: int)

  datatype Unsplit = Unsplit

  const NUL: char := '\U{0000}'

  function Digit(n: nat): (c: char)
    requires n < 10
    ensures c == ('0' as int + n) as char
  {
    ('0' as int + n) as char
  }

  function Digits(n: nat): (r: string)
    ensures r != "" && forall k :: 0 <= k < |r| ==> '0' <= r[k] <= '9'
  {
    if n < 10 then [Digit(n)] else Digits(n / 10) + [Digit(n % 10)]
  }

  /** `%d`. */
  function Itoa(n: int): string {
    if n < 0 then "-" + Digits(-n) else Digits(n)
  }

  /** The number that a string of decimal digits stands for. */
  function Value(s: string): int {
    if s == "" then 0 else 10 * Value(s[..|s| - 1]) + (s[|s| - 1] as int - '0' as int)
  }

  /** `Digits` writes a number in decimal, without a leading zero. */
  lemma {:induction false} DigitsMean(n: nat)
    ensures Value(Digits(n)) == n && (n > 0 ==> Digits(n)[0] != '0')
  {
    var d := Digits(n);
    assert d[|d| - 1] == Digit(n % 10);
    if n >= 10 {
      DigitsMean(n / 10);
      assert d[..|d| - 1] == Digits(n / 10);
    } else {
      assert d[..0] == "";
    }
  }

  /** The preimage of `StableChunkID`. */
  function Preimage(docID: string, pageNo: int, chunkNo: int): string {
    docID + [NUL] + Itoa(pageNo) + [NUL] + Itoa(chunkNo)
  }

  function StableChunkID(docID: string, pageNo: int, chunkNo: int): ChunkId {
    Sha256Hex(Preimage(docID, pageNo, chunkNo))
  }

  /** Trimming an id; a hashed one has no white space. */
  function TrimID(id: ChunkId): ChunkId {
    match id
    case Plain(s) => Plain(TrimSpace(s))
    case Sha256Hex(p) => id
  }

  lemma DigitsLength(n: nat)
    ensures |Digits(n)| == 1 <==> n < 10
  {
    if n >= 10 {
      assert |Digits(n)| == |Digits(n / 10)| + 1;
    }
  }

  lemma {:induction false} DigitsInjective(m: nat, n: nat)
    requires Digits(m) == Digits(n)
    ensures m == n
  {
    var d := Digits(m);
    DigitsLength(m);
    DigitsLength(n);
    if m >= 10 {
      assert d[..|d| - 1] == Digits(m / 10) && d[..|d| - 1] == Digits(n / 10);
      DigitsInjective(m / 10, n / 10);
      assert d[|d| - 1] == Digit(m % 10) && d[|d| - 1] == Digit(n % 10);
    }
  }

  lemma ItoaSign(n: int)
    ensures Itoa(n) != "" && (Itoa(n)[0] == '-' <==> n < 0)
  {
  }

  lemma ItoaInjective(m: int, n: int)
    requires Itoa(m) == Itoa(n)
    ensures m == n
  {
    ItoaSign(m);
    ItoaSign(n);
    if m < 0 {
      assert Itoa(m)[1..] == Digits(-m) && Itoa(n)[1..] == Digits(-n);
      DigitsInjective(-m, -n);
    } else {
      DigitsInjective(m, n);
    }
  }

  lemma ItoaHasNoNul(n: int)
    ensures NUL !in Itoa(n)
  {
  }

  /** The last NUL separates: the parts behind it are equal, and so are those before it. */
  lemma LastNulSplits(a: string, b: string, c: string, d: string)
    requires NUL !in b && NUL !in d && a + [NUL] + b == c + [NUL] + d
    ensures a == c && b == d
  {
    var x := a + [NUL] + b;
    assert x[|a|] == NUL && x[|c|] == NUL;
    assert forall i :: |a| < i < |x| ==> x[i] == b[i - |a| - 1];
    assert forall i :: |c| < i < |x| ==> x[i] == d[i - |c| - 1];
    assert a == x[..|a|] && c == x[..|a|];
    assert b == x[|a| + 1..] && d == x[|a| + 1..];
  }

  /** Different (doc id, page, chunk number) never share a preimage, even when doc ids contain NUL. */
  lemma PreimageInjective(doc1: string, page1: int, chunk1: int, doc2: string, page2: int, chunk2: int)
    requires Preimage(doc1, page1, chunk1) == Preimage(doc2, page2, chunk2)
    ensures doc1 == doc2 && page1 == page2 && chunk1 == chunk2
  {
    ItoaHasNoNul(page1);
    ItoaHasNoNul(page2);
    ItoaHasNoNul(chunk1);
    ItoaHasNoNul(chunk2);
    var head1, head2 := doc1 + [NUL] + Itoa(page1), doc2 + [NUL] + Itoa(page2);
    LastNulSplits(head1, Itoa(chunk1), head2, Itoa(chunk2));
    LastNulSplits(doc1, Itoa(page1), doc2, Itoa(page2));
    ItoaInjective(page1, page2);
    ItoaInjective(chunk1, chunk2);
  }

  lemma StableIdsDiffer(doc1: string, page1: int, chunk1: int, doc2: string, page2: int, chunk2: int)
    ensures StableChunkID(doc1, page1, chunk1) == StableChunkID(doc2, page2, chunk2)
       <==> doc1 == doc2 && page1 == page2 && chunk1 == chunk2
  {
    hide Preimage;
    if Preimage(doc1, page1, chunk1) == Preimage(doc2, page2, chunk2) {
      PreimageInjective(doc1, page1, chunk1, doc2, page2, chunk2);
    }
  }
}
