/** The token chunker in front of the signing strategy: api/secure_app.py, lines 234 and 256-289. */
module Chunker {
  import opened Bytes
  import opened Primitives
  import opened Messages
  import opened Records
  import opened Server
  import opened Arithmetic
  import Exposure

  /** `text.encode()`, for any encoding that works character by character. */
  function EncodeText(enc: char -> bytes, text: string): bytes {
    if text == "" then [] else EncodeText(enc, Init(text)) + enc(Last(text))
  }

  function Join(tokens: seq<string>): string {
    if tokens == [] then "" else Join(Init(tokens)) + Last(tokens)
  }

  lemma {:induction false} EncodeAppend(enc: char -> bytes, a: string, b: string)
    ensures EncodeText(enc, a + b) == EncodeText(enc, a) + EncodeText(enc, b)
    decreases |b|
  {
    if b == "" {
      assert a + b == a;
    } else {
      assert Init(a + b) == a + Init(b) && Last(a + b) == Last(b);
      EncodeAppend(enc, a, Init(b));
      assert EncodeText(enc, a + b) == (EncodeText(enc, a) + EncodeText(enc, Init(b))) + enc(Last(b));
      assert EncodeText(enc, b) == EncodeText(enc, Init(b)) + enc(Last(b));
    }
  }

  lemma {:induction false} JoinAppend(a: seq<string>, b: seq<string>)
    ensures Join(a + b) == Join(a) + Join(b)
    decreases |b|
  {
    if b == [] {
      assert a + b == a;
    } else {
      assert Init(a + b) == a + Init(b) && Last(a + b) == Last(b);
      JoinAppend(a, Init(b));
      assert Join(a + b) == (Join(a) + Join(Init(b))) + Last(b);
      assert Join(b) == Join(Init(b)) + Last(b);
    }
  }

  /** The tokens in groups of `size`, the last one possibly smaller. */
  function Groups(tokens: seq<string>, size: nat): (r: seq<seq<string>>)
    requires size > 0
    decreases |tokens|
  {
    if tokens == [] then []
    else if |tokens| <= size then [tokens]
    else [tokens[..size]] + Groups(tokens[size..], size)
  }

  function Plaintext(enc: char -> bytes, group: seq<string>): bytes {
    EncodeText(enc, Join(group))
  }

  function Plaintexts(enc: char -> bytes, groups: seq<seq<string>>): (r: seq<bytes>)
    ensures |r| == |groups| && forall i | 0 <= i < |groups| :: r[i] == Plaintext(enc, groups[i])
  {
    seq(|groups|, i requires 0 <= i < |groups| => Plaintext(enc, groups[i]))
  }

  lemma PlaintextsAppend(enc: char -> bytes, groups: seq<seq<string>>, group: seq<string>)
    ensures Plaintexts(enc, groups + [group]) == Plaintexts(enc, groups) + [Plaintext(enc, group)]
  {
  }

  function Sizes(groups: seq<seq<string>>): (r: seq<nat>)
    ensures |r| == |groups| && forall i | 0 <= i < |groups| :: r[i] == |groups[i]|
  {
    seq(|groups|, i requires 0 <= i < |groups| => |groups[i]|)
  }

  /** ceil(n / size) */
  function CeilDiv(n: nat, size: nat): nat
    requires size > 0
  {
    (n + size - 1) / size
  }

  lemma {:induction false} GroupCount(tokens: seq<string>, size: nat)
    requires size > 0
    ensures |Groups(tokens, size)| == CeilDiv(|tokens|, size)
    decreases |tokens|
  {
    var n := |tokens|;
    if tokens == [] {
      ModOf(size, 0, size - 1);
    } else if n <= size {
      assert n + size - 1 == size * 1 + (n - 1);
      ModOf(size, 1, n - 1);
    } else {
      GroupCount(tokens[size..], size);
      var q, r := (n - size + size - 1) / size, (n - size + size - 1) % size;
      assert n - 1 == size * q + r;
      assert size * (q + 1) == size * q + size;
      ModOf(size, q + 1, r);
    }
  }

  lemma JoinOfOne(t: string)
    ensures Join([]) == "" && Join([t]) == t
  {
    assert Init([t]) == [] && Last([t]) == t;
  }

  lemma EncodingOfOne(enc: char -> bytes, ch: char)
    ensures EncodeText(enc, "") == [] && EncodeText(enc, [ch]) == enc(ch)
  {
    assert Init([ch]) == "" && Last([ch]) == ch;
  }

  lemma JoinMiddle(front: seq<string>, t: string, back: seq<string>)
    ensures Join(front + [t] + back) == Join(front) + t + Join(back)
  {
    JoinAppend(front + [t], back);
    JoinAppend(front, [t]);
    JoinOfOne(t);
  }

  lemma EncodeMiddle(enc: char -> bytes, front: string, ch: char, back: string)
    ensures EncodeText(enc, front + [ch] + back) == EncodeText(enc, front) + enc(ch) + EncodeText(enc, back)
  {
    EncodeAppend(enc, front + [ch], back);
    EncodeAppend(enc, front, [ch]);
    EncodingOfOne(enc, ch);
  }

  lemma Around<T>(xs: seq<T>, i: nat)
    requires i < |xs|
    ensures xs == xs[..i] + [xs[i]] + xs[i + 1..]
  {
  }

  /** What joining means: the tokens one after the other, each in full and at its place. */
  lemma TokenInPlace(tokens: seq<string>, i: nat)
    requires i < |tokens|
    ensures Join(tokens) == Join(tokens[..i]) + tokens[i] + Join(tokens[i + 1..])
  {
    Around(tokens, i);
    JoinMiddle(tokens[..i], tokens[i], tokens[i + 1..]);
  }

  /** What encoding means: the code of each character at its place. */
  lemma CharacterInPlace(enc: char -> bytes, text: string, i: nat)
    requires i < |text|
    ensures EncodeText(enc, text) == EncodeText(enc, text[..i]) + enc(text[i]) + EncodeText(enc, text[i + 1..])
  {
    Around(text, i);
    EncodeMiddle(enc, text[..i], text[i], text[i + 1..]);
  }

  /** So the bytes of token i stand, whole, between those of the tokens before and after it. */
  lemma DeliveredInPlace(enc: char -> bytes, tokens: seq<string>, i: nat)
    requires i < |tokens|
    ensures EncodeText(enc, Join(tokens)) ==
            EncodeText(enc, Join(tokens[..i])) + EncodeText(enc, tokens[i]) + EncodeText(enc, Join(tokens[i + 1..]))
  {
    TokenInPlace(tokens, i);
    EncodeAppend(enc, Join(tokens[..i]) + tokens[i], Join(tokens[i + 1..]));
    EncodeAppend(enc, Join(tokens[..i]), tokens[i]);
  }

  lemma ConcatFront(first: bytes, rest: seq<bytes>)
    ensures Concat([first] + rest) == first + Concat(rest)
  {
    ConcatAppend([first], rest);
    assert Init([first]) == [];
    assert Concat([first]) == [] + first;
  }

  /** Encoding group by group loses nothing and adds nothing. */
  lemma {:induction false} PlaintextsJoin(enc: char -> bytes, tokens: seq<string>, size: nat)
    requires size > 0
    ensures Concat(Plaintexts(enc, Groups(tokens, size))) == EncodeText(enc, Join(tokens))
    decreases |tokens|
  {
    var groups := Groups(tokens, size);
    if tokens == [] {
    } else if |tokens| <= size {
      assert Plaintexts(enc, groups) == [Plaintext(enc, tokens)];
      assert Init(Plaintexts(enc, groups)) == [];
    } else {
      var first, rest := tokens[..size], tokens[size..];
      PlaintextsJoin(enc, rest, size);
      var others := Plaintexts(enc, Groups(rest, size));
      assert Plaintexts(enc, groups) == [Plaintext(enc, first)] + others;
      ConcatFront(Plaintext(enc, first), others);
      assert tokens == first + rest;
      JoinAppend(first, rest);
      EncodeAppend(enc, Join(first), Join(rest));
    }
  }

  /** All groups but the last have `size` tokens, and together they have all of them. */
  lemma {:induction false} GroupSizes(tokens: seq<string>, size: nat)
    requires size > 0
    ensures Exposure.Even(Sizes(Groups(tokens, size)), size)
    ensures Exposure.Sum(Sizes(Groups(tokens, size))) == |tokens|
    decreases |tokens|
  {
    var groups := Groups(tokens, size);
    if tokens == [] {
    } else if |tokens| <= size {
      assert Sizes(groups) == [|tokens|] && Init(Sizes(groups)) == [];
    } else {
      GroupSizes(tokens[size..], size);
      var rest := Sizes(Groups(tokens[size..], size));
      assert Sizes(groups) == [size] + rest;
      SumFront(size, rest);
    }
  }

  lemma {:induction false} SumFront(first: nat, rest: seq<nat>)
    ensures Exposure.Sum([first] + rest) == first + Exposure.Sum(rest)
  {
    if rest == [] {
      assert Init([first] + rest) == [];
    } else {
      SumFront(first, Init(rest));
      assert Init([first] + rest) == [first] + Init(rest);
    }
  }

  /** The state of the event generator: the tokens waiting for their chunk to fill up, and the number
      of the next chunk. */
  class Generator {
    const strategy: SigningStrategy
    const enc: char -> bytes
    var tokenBuffer: seq<string>
    var index: nat
    ghost var flushed: seq<seq<string>>

    constructor (strategy: SigningStrategy, enc: char -> bytes)
      requires strategy.Valid() && strategy.plains == []
      ensures this.strategy == strategy && this.enc == enc
      ensures Valid() && flushed == [] && tokenBuffer == []
    {
      this.strategy := strategy;
      this.enc := enc;
      tokenBuffer := [];
      index := 0;
      flushed := [];
    }

    /** The groups flushed so far are what the strategy has been given. */
    ghost predicate Valid()
      reads this, strategy
    {
      strategy.Valid() && index == |flushed| && strategy.plains == Plaintexts(enc, flushed)
    }

    /** The rows sent for the groups flushed so far. */
    ghost function Rows(): seq<Chunk>
      requires Valid()
      reads this, strategy
    {
      Served(strategy.c, strategy.strategy, strategy.plains)
    }

    /** Hands the waiting tokens over as one chunk, if there are any; the row to send, if there is
        one. */
    method FlushBuffer() returns (row: Option<Chunk>)
      requires Valid()
      requires tokenBuffer != [] ==> |flushed| + 1 < TWO_TO_32
      modifies this, strategy
      ensures Valid() && tokenBuffer == []
      ensures flushed == old(flushed) + if old(tokenBuffer) == [] then [] else [old(tokenBuffer)]
      ensures Rows() == old(Rows()) + match row case Some(x) => [x] case None => []
    {
      if tokenBuffer == [] {
        return None;
      }
      var text := Join(tokenBuffer);
      PlaintextsAppend(enc, flushed, tokenBuffer);
      flushed := flushed + [tokenBuffer];
      tokenBuffer := [];
      row := strategy.AddChunk(EncodeText(enc, text), index);
      index := index + 1;
    }

    /** One token from the model. */
    method AddToken(token: string, size: nat) returns (row: Option<Chunk>)
      requires Valid() && |tokenBuffer| < size
      requires |flushed| + 1 < TWO_TO_32
      modifies this, strategy
      ensures Valid() && |tokenBuffer| < size
      ensures var more := old(tokenBuffer) + [token];
              if |more| < size then flushed == old(flushed) && tokenBuffer == more
              else flushed == old(flushed) + [more] && tokenBuffer == []
      ensures Rows() == old(Rows()) + match row case Some(x) => [x] case None => []
    {
      tokenBuffer := tokenBuffer + [token];
      row := None;
      if |tokenBuffer| >= size {
        row := FlushBuffer();
      }
    }
  }

  /** The records of one streaming response. */
  method EventGenerator(c: Crypto, s: Strategy, enc: char -> bytes, tokens: seq<string>, requestedSize: int)
    returns (rows: seq<Chunk>, final: Terminal, ghost signed: set<Message>)
    requires |Groups(tokens, ChunkSize(requestedSize))| < TWO_TO_32
    ensures var plains := Plaintexts(enc, Groups(tokens, ChunkSize(requestedSize)));
            rows == Served(c, s, plains) && final == ServedFinal(c, s, plains) && signed == SignedLog(c, s, plains)
  {
    var size := ChunkSize(requestedSize);
    var strategy := new SigningStrategy(c, s);
    var generator := new Generator(strategy, enc);
    rows := SendTokens(generator, tokens, size);
    final := strategy.Finalize(generator.index);
    signed := strategy.signed;
  }

  /** The next token of the list. */
  method TakeToken(generator: Generator, tokens: seq<string>, t: nat, size: nat) returns (row: Option<Chunk>)
    requires generator.Valid() && |generator.tokenBuffer| < size
    requires t < |tokens| && |Groups(tokens, size)| < TWO_TO_32
    requires InProgress(generator.flushed, generator.tokenBuffer, tokens, t, size)
    modifies generator, generator.strategy
    ensures generator.Valid() && |generator.tokenBuffer| < size
    ensures InProgress(generator.flushed, generator.tokenBuffer, tokens, t + 1, size)
    ensures generator.Rows() == old(generator.Rows()) + match row case Some(x) => [x] case None => []
  {
    InProgressStep(generator.flushed, generator.tokenBuffer, tokens, t, size);
    row := generator.AddToken(tokens[t], size);
  }

  /** The loop over the tokens and the last flush. */
  method SendTokens(generator: Generator, tokens: seq<string>, size: nat) returns (rows: seq<Chunk>)
    requires generator.Valid() && generator.flushed == [] && generator.tokenBuffer == []
    requires size > 0 && |Groups(tokens, size)| < TWO_TO_32
    modifies generator, generator.strategy
    ensures generator.Valid() && generator.flushed == Groups(tokens, size)
    ensures rows == generator.Rows()
  {
    rows := [];
    var t := 0;
    assert [] + tokens[t..] == tokens;
    while t < |tokens|
      invariant 0 <= t <= |tokens|
      invariant generator.Valid() && |generator.tokenBuffer| < size
      invariant InProgress(generator.flushed, generator.tokenBuffer, tokens, t, size)
      invariant rows == generator.Rows()
    {
      var row := TakeToken(generator, tokens, t, size);
      t := t + 1;
      if row.Some? {
        rows := rows + [row.value];
      }
    }
    assert generator.tokenBuffer + tokens[t..] == generator.tokenBuffer;
    var row := generator.FlushBuffer();
    if row.Some? {
      rows := rows + [row.value];
    }
  }

  /** `max(1, int(requested))` */
  function ChunkSize(requested: int): (size: nat)
    ensures size >= 1 && (requested >= 1 ==> size == requested) && (requested < 1 ==> size == 1)
  {
    if requested < 1 then 1 else requested
  }

  /** The grouping of all tokens is what has been flushed, then the grouping of the waiting tokens and
      the ones still to come. */
  ghost predicate InProgress(done: seq<seq<string>>, buffer: seq<string>, tokens: seq<string>, t: nat, size: nat)
    requires t <= |tokens| && size > 0
  {
    Groups(tokens, size) == done + Groups(buffer + tokens[t..], size)
  }

  lemma InProgressStep(done: seq<seq<string>>, buffer: seq<string>, tokens: seq<string>, t: nat, size: nat)
    requires t < |tokens| && |buffer| < size
    requires InProgress(done, buffer, tokens, t, size)
    ensures var more := buffer + [tokens[t]];
            if |more| < size then InProgress(done, more, tokens, t + 1, size)
            else InProgress(done + [more], [], tokens, t + 1, size)
  {
    var more, all, rest := buffer + [tokens[t]], buffer + tokens[t..], tokens[t + 1..];
    assert all == more + rest;
    assert [] + rest == rest;
    if |more| == size {
      assert all[..size] == more && all[size..] == rest;
      if rest == [] {
        assert all == more;
      }
    }
  }
}
