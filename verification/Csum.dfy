/** The Internet checksum, and its incremental update (section 3 of RFC 1624). */
module Checksums {

  type Byte = b: nat | b < 0x100
  type U16 = n: nat | n < 0x1_0000
  type U32 = n: nat | n < 0x1_0000_0000

  function Sum(words: seq<U16>): nat
  {
    if words == [] then 0 else words[0] + Sum(words[1..])
  }

  /* One's complement addition of all carries: the number in [1, 65535] that is congruent to 's',
     except that nothing but zero gives zero. */
  function Fold(s: nat): (f: nat)
    ensures f <= 65535 && (f == 0 <==> s == 0) && f % 65535 == s % 65535
  {
    if s == 0 then 0 else (s - 1) % 65535 + 1
  }

  function Finished(s: nat): (c: U16)
  {
    65535 - Fold(s)
  }

  lemma FoldCarry(s: nat)
    requires s >= 0x1_0000
    ensures Fold(s % 0x1_0000 + s / 0x1_0000) == Fold(s) && 0 < s % 0x1_0000 + s / 0x1_0000 < s
  {
    var q, r := s / 0x1_0000, s % 0x1_0000;
    assert s - 1 == 65535 * q + (r + q - 1);
    ModAdd(q, r + q - 1);
  }

  lemma ModAdd(q: nat, x: nat)
    ensures (65535 * q + x) % 65535 == x % 65535
  {
    if q > 0 {
      ModAdd(q - 1, x);
      assert 65535 * q + x == 65535 * (q - 1) + x + 65535;
      ModOnce(65535 * (q - 1) + x);
    }
  }

  lemma ModOnce(x: nat)
    ensures (x + 65535) % 65535 == x % 65535
  {
  }

  // ---------------------------------------------------------------- from scratch

  /* csum_finish() */
  method CsumFinish(partial0: U32) returns (c: U16)
    ensures c == Finished(partial0)
  {
    var partial: nat := partial0;
    while partial / 0x1_0000 != 0
      invariant Fold(partial) == Fold(partial0)
      decreases partial
    {
      FoldCarry(partial);
      partial := partial % 0x1_0000 + partial / 0x1_0000;
    }
    c := 65535 - partial;
  }

  /* A 16-bit word as a little-endian host sees it. */
  function Word(a: nat, b: nat): (w: nat)
    ensures a < 0x100 && b < 0x100 ==> w < 0x1_0000 && w % 0x100 == a && w / 0x100 == b
  {
    a + 256 * b
  }

  /* The words of the data, the last byte padded. */
  function Words(data: seq<Byte>): seq<U16>
  {
    if data == [] then []
    else if |data| == 1 then [data[0]]
    else [Word(data[0], data[1])] + Words(data[2..])
  }

  lemma SumWords(data: seq<Byte>, i: nat)
    requires i < |data|
    ensures Sum(Words(data[i..])) ==
            if i + 1 == |data| then data[i] else Word(data[i], data[i + 1]) + Sum(Words(data[i + 2..]))
  {
    var rest := data[i..];
    if i + 1 < |data| {
      assert rest[2..] == data[i + 2..];
      assert Words(rest)[1..] == Words(data[i + 2..]);
    }
  }

  function Wrap(n: nat): U32 { n % 0x1_0000_0000 }

  lemma WrapAdd(a: nat, b: nat, c: nat)
    ensures Wrap(Wrap(a + b) + c) == Wrap(a + b + c)
  {
  }

  /* csum_continue(), whose accumulator has 32 bits. */
  method CsumContinue(partial0: U32, data: seq<Byte>) returns (partial: U32)
    ensures partial == Wrap(partial0 + Sum(Words(data)))
  {
    hide Wrap, Words, Word;
    partial := partial0;
    assert data[0..] == data;
    var i := 0;
    while |data| - i > 1
      invariant 0 <= i <= |data| && Wrap(partial + Sum(Words(data[i..]))) == Wrap(partial0 + Sum(Words(data)))
    {
      var word := Word(data[i], data[i + 1]);
      SumWords(data, i);
      WrapAdd(partial, word, Sum(Words(data[i + 2..])));
      partial := Wrap(partial + word);
      i := i + 2;
    }
    if i < |data| {
      SumWords(data, i);
      partial := Wrap(partial + data[i]);
    } else {
      WrapRest(partial, data[i..]);
    }
  }

  lemma WrapId(n: nat)
    requires n < 0x1_0000_0000
    ensures Wrap(n) == n
  {
  }

  lemma WrapRest(n: U32, data: seq<Byte>)
    requires data == []
    ensures Wrap(n + Sum(Words(data))) == n
  {
  }

  /* csum(): the checksum of the data, as long as the sum of its words fits the accumulator. */
  method Csum(data: seq<Byte>) returns (c: U16)
    ensures c == Finished(Wrap(Sum(Words(data))))
    ensures Sum(Words(data)) < 0x1_0000_0000 ==> c == Finished(Sum(Words(data)))
  {
    hide Sum, Words, Wrap, Fold;
    var partial := CsumContinue(0, data);
    c := CsumFinish(partial);
    if Sum(Words(data)) < 0x1_0000_0000 {
      WrapId(Sum(Words(data)));
    }
  }

  // ---------------------------------------------------------------- incremental update

  /* recalc_csum16() */
  method RecalcCsum16(oldCsum: U16, oldWord: U16, newWord: U16) returns (c: U16)
    ensures c == Recalculated(oldCsum, [oldWord], [newWord])
  {
    c := CsumFinish((65535 - oldCsum) + (65535 - oldWord) + newWord);
    assert [oldWord][..0] == [] && [newWord][..0] == [];
    assert Recalculated(oldCsum, [], []) == oldCsum;
  }

  /* Replacing the words 'olds' by 'news', one at a time. */
  function Recalculated(oldCsum: U16, olds: seq<U16>, news: seq<U16>): (c: U16)
    requires |olds| == |news|
  {
    if olds == [] then oldCsum
    else
      var n := |olds| - 1;
      Finished((65535 - Recalculated(oldCsum, olds[..n], news[..n])) + (65535 - olds[n]) + news[n])
  }

  lemma RecalculatedLast(c: U16, olds: seq<U16>, news: seq<U16>, o: U16, n: U16)
    requires |olds| == |news|
    ensures Recalculated(c, olds + [o], news + [n]) == Recalculated(Recalculated(c, olds, news), [o], [n])
  {
    assert (olds + [o])[..|olds|] == olds && (news + [n])[..|news|] == news;
    assert [o][..0] == [] && [n][..0] == [];
  }

  /* recalc_csum32(): first the low, then the high halves. */
  method RecalcCsum32(oldCsum: U16, oldU32: U32, newU32: U32) returns (c: U16)
    ensures c == Recalculated(oldCsum, Halves(oldU32), Halves(newU32))
  {
    c := RecalcCsum16(oldCsum, oldU32 % 0x1_0000, newU32 % 0x1_0000);
    c := RecalcCsum16(c, oldU32 / 0x1_0000, newU32 / 0x1_0000);
    RecalculatedLast(oldCsum, [oldU32 % 0x1_0000], [newU32 % 0x1_0000], oldU32 / 0x1_0000, newU32 / 0x1_0000);
    assert Halves(oldU32) == [oldU32 % 0x1_0000] + [oldU32 / 0x1_0000];
    assert Halves(newU32) == [newU32 % 0x1_0000] + [newU32 / 0x1_0000];
  }

  function Halves(x: U32): seq<U16>
  {
    [x % 0x1_0000, x / 0x1_0000]
  }

  /* recalc_csum48() */
  method RecalcCsum48(oldCsum: U16, olds: seq<U16>, news: seq<U16>) returns (c: U16)
    requires |olds| == |news| == 3
    ensures c == Recalculated(oldCsum, olds, news)
  {
    c := oldCsum;
    for i := 0 to 3
      invariant c == Recalculated(oldCsum, olds[..i], news[..i])
    {
      RecalculatedLast(oldCsum, olds[..i], news[..i], olds[i], news[i]);
      assert olds[..i] + [olds[i]] == olds[..i + 1] && news[..i] + [news[i]] == news[..i + 1];
      c := RecalcCsum16(c, olds[i], news[i]);
    }
    assert olds[..3] == olds && news[..3] == news;
  }

  function AllHalves(xs: seq<U32>): (r: seq<U16>)
    ensures |r| == 2 * |xs|
  {
    if xs == [] then [] else AllHalves(xs[..|xs| - 1]) + Halves(xs[|xs| - 1])
  }

  lemma {:induction false} RecalculatedMore(c: U16, olds: seq<U16>, news: seq<U16>, olds2: seq<U16>, news2: seq<U16>)
    requires |olds| == |news| && |olds2| == |news2|
    ensures Recalculated(c, olds + olds2, news + news2) == Recalculated(Recalculated(c, olds, news), olds2, news2)
  {
    hide Finished;
    if olds2 == [] {
      assert olds + olds2 == olds && news + news2 == news;
    } else {
      var n := |olds2| - 1;
      RecalculatedMore(c, olds, news, olds2[..n], news2[..n]);
      assert (olds + olds2)[..|olds| + n] == olds + olds2[..n];
      assert (news + news2)[..|news| + n] == news + news2[..n];
    }
  }

  /* recalc_csum128() */
  method RecalcCsum128(oldCsum: U16, olds: seq<U32>, news: seq<U32>) returns (c: U16)
    requires |olds| == |news| == 4
    ensures c == Recalculated(oldCsum, AllHalves(olds), AllHalves(news))
  {
    hide Recalculated, Halves;
    c := oldCsum;
    RecalculatedNone(oldCsum);
    for i := 0 to 4
      invariant c == Recalculated(oldCsum, AllHalves(olds[..i]), AllHalves(news[..i]))
    {
      HalvesNext(olds, i);
      HalvesNext(news, i);
      RecalculatedMore(oldCsum, AllHalves(olds[..i]), AllHalves(news[..i]), Halves(olds[i]), Halves(news[i]));
      c := RecalcCsum32(c, olds[i], news[i]);
    }
    assert olds[..4] == olds && news[..4] == news;
  }

  lemma RecalculatedNone(c: U16)
    ensures Recalculated(c, [], []) == c
  {
  }

  lemma HalvesNext(xs: seq<U32>, i: nat)
    requires i < |xs|
    ensures |Halves(xs[i])| == 2 && AllHalves(xs[..i + 1]) == AllHalves(xs[..i]) + Halves(xs[i])
  {
    assert xs[..i + 1][..i] == xs[..i];
  }

  // ---------------------------------------------------------------- incremental is from scratch

  /* 'c' stands for data whose words add up to 's': its complement is congruent to 's', and it is
     0xffff only for zero. */
  predicate StandsFor(c: U16, s: nat)
  {
    (65535 - c) % 65535 == s % 65535 && (c == 65535 ==> s == 0)
  }

  lemma StandsExactly(c: U16, s: nat)
    requires StandsFor(c, s)
    ensures s > 0 ==> c == Finished(s)
    ensures s == 0 ==> c == 0 || c == Finished(s)
  {
  }

  lemma FinishedStands(s: nat)
    ensures StandsFor(Finished(s), s)
  {
  }

  /* One word is replaced. */
  lemma ReplaceWord(c: U16, s: nat, o: U16, n: U16)
    requires StandsFor(c, s) && o <= s
    ensures var c' := Finished((65535 - c) + (65535 - o) + n);
            StandsFor(c', s - o + n) && (s - o + n == 0 ==> c' == 0)
  {
    var x := (65535 - c) + (65535 - o) + n;
    assert x > 0;
    Congruent(65535 - c, s, o, n);
  }

  lemma Congruent(f: nat, s: nat, o: U16, n: U16)
    requires f % 65535 == s % 65535 && o <= s
    ensures (f + (65535 - o) + n) % 65535 == (s - o + n) % 65535
  {
    var a, b := f / 65535, s / 65535;
    var r := f % 65535;
    assert f == 65535 * a + r && s == 65535 * b + r;
    var x := r + 65535 - o + n;
    if x >= 0 {
      ModAdd(a, x);
      if b > 0 {
        ModAdd(b - 1, x);
      }
    }
  }

  /* Some consecutive words get new values, as in a field of 16, 32, 48 or 128 bits. */
  datatype Edit = Edit(at: nat, news: seq<U16>)

  predicate Fits(words: seq<U16>, e: Edit)
  {
    e.at + |e.news| <= |words| && e.news != []
  }

  function Edited(words: seq<U16>, e: Edit): (r: seq<U16>)
    requires e.at + |e.news| <= |words|
    ensures |r| == |words|
  {
    words[..e.at] + e.news + words[e.at + |e.news|..]
  }

  lemma {:induction false} SumUpdate(words: seq<U16>, i: nat, w: U16)
    requires i < |words|
    ensures words[i] <= Sum(words) && Sum(words[i := w]) == Sum(words) - words[i] + w
  {
    if i > 0 {
      SumUpdate(words[1..], i - 1, w);
      assert words[i := w][1..] == words[1..][i - 1 := w];
    } else {
      assert words[0 := w][1..] == words[1..];
    }
  }

  lemma {:induction false} EditStands(c: U16, words: seq<U16>, e: Edit)
    requires StandsFor(c, Sum(words)) && e.at + |e.news| <= |words|
    ensures var c' := Recalculated(c, words[e.at..e.at + |e.news|], e.news);
            StandsFor(c', Sum(Edited(words, e))) && (e.news != [] && Sum(Edited(words, e)) == 0 ==> c' == 0)
    decreases |e.news|
  {
    hide StandsFor, Finished, Sum;
    var olds := words[e.at..e.at + |e.news|];
    if e.news == [] {
      assert Edited(words, e) == words;
    } else {
      var n := |e.news| - 1;
      var prefix := Edit(e.at, e.news[..n]);
      EditStands(c, words, prefix);
      var t := Edited(words, prefix);
      assert olds[..n] == words[e.at..e.at + n] && olds[n] == words[e.at + n] == t[e.at + n];
      assert Edited(words, e) == t[e.at + n := e.news[n]];
      SumUpdate(t, e.at + n, e.news[n]);
      ReplaceWord(Recalculated(c, olds[..n], e.news[..n]), Sum(t), olds[n], e.news[n]);
    }
  }

  /* A sequence of edits, and the recalculations that go with it. */
  ghost predicate AllFit(words: seq<U16>, edits: seq<Edit>)
  {
    forall i :: 0 <= i < |edits| ==> Fits(words, edits[i])
  }

  function After(words: seq<U16>, edits: seq<Edit>): (r: seq<U16>)
    requires AllFit(words, edits)
    ensures |r| == |words|
  {
    if edits == [] then words else Edited(After(words, edits[..|edits| - 1]), edits[|edits| - 1])
  }

  function RecalculatedAfter(c: U16, words: seq<U16>, edits: seq<Edit>): U16
    requires AllFit(words, edits)
  {
    if edits == [] then c
    else
      var n := |edits| - 1;
      var before, e := After(words, edits[..n]), edits[n];
      Recalculated(RecalculatedAfter(c, words, edits[..n]), before[e.at..e.at + |e.news|], e.news)
  }

  lemma {:induction false} EditsStand(words: seq<U16>, edits: seq<Edit>)
    requires AllFit(words, edits)
    ensures var c := RecalculatedAfter(Finished(Sum(words)), words, edits);
            var s := Sum(After(words, edits));
            StandsFor(c, s) && (edits != [] && s == 0 ==> c == 0)
  {
    hide StandsFor, Finished, Sum, Recalculated, Edited;
    if edits == [] {
      FinishedStands(Sum(words));
    } else {
      var n := |edits| - 1;
      EditsStand(words, edits[..n]);
      assert Fits(words, edits[n]);
      EditStands(RecalculatedAfter(Finished(Sum(words)), words, edits[..n]), After(words, edits[..n]), edits[n]);
    }
  }

  /* After any sequence of recalculations, the checksum is the one computed from scratch if and
     only if some data is not zero.  It is congruent to it in any case. */
  lemma IncrementalIsExact(words: seq<U16>, edits: seq<Edit>)
    requires AllFit(words, edits) && edits != []
    ensures var c := RecalculatedAfter(Finished(Sum(words)), words, edits);
            var s := Sum(After(words, edits));
            && (c == Finished(s) <==> s > 0)
            && (s == 0 ==> c == 0)
            && (65535 - c) % 65535 == s % 65535
  {
    hide Sum, RecalculatedAfter, After;
    EditsStand(words, edits);
    StandsExactly(RecalculatedAfter(Finished(Sum(words)), words, edits), Sum(After(words, edits)));
  }

  // ---------------------------------------------------------------- fields in the data

  /* The number that a little-endian host reads from 4 bytes: the second word is the high half. */
  function Number(b: seq<Byte>): (x: U32)
    requires |b| == 4
    ensures x % 0x1_0000 == Word(b[0], b[1]) && x / 0x1_0000 == Word(b[2], b[3])
  {
    Joined(Word(b[0], b[1]), Word(b[2], b[3]))
  }

  function Joined(low: U16, high: U16): (x: U32)
    ensures x % 0x1_0000 == low && x / 0x1_0000 == high
  {
    var x: nat := low + 0x1_0000 * high;
    x
  }

  lemma HalvesAreWords(b: seq<Byte>)
    requires |b| == 4
    ensures Halves(Number(b)) == Words(b)
  {
    hide Number, Word, Words;
    FourBytes(b);
  }

  lemma FourBytes(b: seq<Byte>)
    requires |b| == 4
    ensures Words(b) == [Word(b[0], b[1]), Word(b[2], b[3])]
  {
    hide Word;
    var rest := b[2..];
    assert rest[2..] == [] && Words(rest[2..]) == [];
    assert Words(rest) == [Word(rest[0], rest[1])];
  }

  /* Some bytes of the data are replaced. */
  function Spliced(data: seq<Byte>, at: nat, news: seq<Byte>): (r: seq<Byte>)
    requires at + |news| <= |data|
    ensures |r| == |data| && forall i :: 0 <= i < |r| ==> r[i] == if at <= i < at + |news| then news[i - at] else data[i]
  {
    data[..at] + news + data[at + |news|..]
  }

  lemma {:induction false} WordsAppend(a: seq<Byte>, b: seq<Byte>)
    requires |a| % 2 == 0
    ensures Words(a + b) == Words(a) + Words(b) && |Words(a)| == |a| / 2
  {
    hide Words, Word;
    if a == [] {
      assert a + b == b;
      NoWords();
    } else {
      WordsAppend(a[2..], b);
      assert (a + b)[2..] == a[2..] + b;
      WordsNext(a);
      WordsNext(a + b);
    }
  }

  lemma NoWords()
    ensures Words([]) == []
  {
  }

  lemma WordsNext(data: seq<Byte>)
    requires |data| >= 2
    ensures Words(data) == [Word(data[0], data[1])] + Words(data[2..])
  {
  }

  /* A field of an even number of bytes at an even offset is an edit of the words. */
  lemma FieldIsEdit(data: seq<Byte>, at: nat, news: seq<Byte>)
    requires at % 2 == 0 && |news| % 2 == 0 && at + |news| <= |data|
    ensures var words, e := Words(data), Edit(at / 2, Words(news));
            && e.at + |e.news| <= |words| && Words(Spliced(data, at, news)) == Edited(words, e)
            && words[e.at..e.at + |e.news|] == Words(data[at..at + |news|])
  {
    hide Words;
    var a, olds, b := data[..at], data[at..at + |news|], data[at + |news|..];
    assert data == a + (olds + b) && Spliced(data, at, news) == a + (news + b);
    WordsAppend(a, olds + b);
    WordsAppend(olds, b);
    WordsAppend(a, news + b);
    WordsAppend(news, b);
  }

  /* Replacing an address of 4 bytes: what recalc_csum32() gives is the checksum of the new data, if and
     only if some of it is not zero. */
  lemma Field32IsExact(data: seq<Byte>, at: nat, news: seq<Byte>)
    requires at % 2 == 0 && |news| == 4 && at + 4 <= |data|
    ensures var c := Recalculated(Finished(Sum(Words(data))), Halves(Number(data[at..at + 4])), Halves(Number(news)));
            var s := Sum(Words(Spliced(data, at, news)));
            (c == Finished(s) <==> s > 0) && (s == 0 ==> c == 0)
  {
    hide Words, Sum, Number, Halves, Spliced, Recalculated, Edited;
    HalvesAreWords(data[at..at + 4]);
    HalvesAreWords(news);
    FieldIsEdit(data, at, news);
    FieldIsExact(data, at, news);
  }

  lemma FieldIsExact(data: seq<Byte>, at: nat, news: seq<Byte>)
    requires at % 2 == 0 && |news| % 2 == 0 && news != [] && at + |news| <= |data|
    ensures |Words(data[at..at + |news|])| == |Words(news)|
    ensures var c := Recalculated(Finished(Sum(Words(data))), Words(data[at..at + |news|]), Words(news));
            var s := Sum(Words(Spliced(data, at, news)));
            (c == Finished(s) <==> s > 0) && (s == 0 ==> c == 0)
  {
    hide Words, Sum, Spliced, Recalculated, Edited, StandsFor, Finished;
    var words, e := Words(data), Edit(at / 2, Words(news));
    FieldIsEdit(data, at, news);
    WordsAppend(news, []);
    assert news + [] == news;
    FinishedStands(Sum(words));
    EditStands(Finished(Sum(words)), words, e);
    StandsExactly(Recalculated(Finished(Sum(words)), words[e.at..e.at + |e.news|], e.news), Sum(Edited(words, e)));
    ZeroIsNot(Sum(Edited(words, e)));
  }

  lemma ZeroIsNot(s: nat)
    ensures s == 0 ==> Finished(s) != 0
  {
  }

  /* The same for 16 bytes and recalc_csum128(). */
  lemma Field128IsExact(data: seq<Byte>, at: nat, news: seq<Byte>)
    requires at % 2 == 0 && |news| == 16 && at + 16 <= |data|
    ensures var c := Recalculated(Finished(Sum(Words(data))), AllHalves(Numbers(data[at..at + 16], 4)), AllHalves(Numbers(news, 4)));
            var s := Sum(Words(Spliced(data, at, news)));
            (c == Finished(s) <==> s > 0) && (s == 0 ==> c == 0)
  {
    hide Words, Sum, Number, Halves, Spliced, Recalculated, Edited, Numbers, AllHalves;
    AllHalvesAreWords(data[at..at + 16], 4);
    AllHalvesAreWords(news, 4);
    FieldIsExact(data, at, news);
  }

  function Numbers(b: seq<Byte>, n: nat): (xs: seq<U32>)
    requires |b| == 4 * n
    ensures |xs| == n
  {
    if n == 0 then [] else Numbers(b[..4 * n - 4], n - 1) + [Number(b[4 * n - 4..])]
  }

  lemma {:induction false} AllHalvesAreWords(b: seq<Byte>, n: nat)
    requires |b| == 4 * n
    ensures AllHalves(Numbers(b, n)) == Words(b)
    decreases n
  {
    hide Number, Halves, Words, AllHalves;
    if n == 0 {
      NoHalves();
      NoWords();
    } else {
      var m := 4 * n - 4;
      AllHalvesAreWords(b[..m], n - 1);
      HalvesAreWords(b[m..]);
      WordsAppend(b[..m], b[m..]);
      assert b[..m] + b[m..] == b;
      LastHalves(Numbers(b[..m], n - 1), Number(b[m..]));
    }
  }

  lemma NoHalves()
    ensures AllHalves([]) == []
  {
  }

  lemma LastHalves(xs: seq<U32>, x: U32)
    ensures AllHalves(xs + [x]) == AllHalves(xs) + Halves(x)
  {
    assert (xs + [x])[..|xs|] == xs;
  }

  // ---------------------------------------------------------------- receiving

  /* The words of the data are its pairs of bytes, and a last odd byte counts as if a zero followed. */
  lemma {:induction false} WordsMeaning(data: seq<Byte>)
    ensures |Words(data)| == (|data| + 1) / 2
    ensures forall i :: 0 <= i < |Words(data)| ==> WordAt(data, i, Words(data)[i])
  {
    if |data| >= 2 {
      hide Words, Word;
      WordsMeaning(data[2..]);
      WordsNext(data);
      forall i | 0 < i < |Words(data)| ensures WordAt(data, i, Words(data)[i]) {
        assert WordAt(data[2..], i - 1, Words(data[2..])[i - 1]);
      }
    }
  }

  predicate WordAt(data: seq<Byte>, i: nat, w: U16)
  {
    2 * i < |data| && w % 0x100 == data[2 * i] && w / 0x100 == if 2 * i + 1 < |data| then data[2 * i + 1] else 0
  }

  /* Data with its own checksum in a word that was zero before has checksum zero. */
  lemma ChecksummedIsZero(words: seq<U16>, i: nat)
    requires i < |words| && words[i] == 0
    ensures Finished(Sum(words[i := Finished(Sum(words))])) == 0
  {
    hide Sum;
    var s := Sum(words);
    SumUpdate(words, i, Finished(s));
    MultipleIsZero(s + Finished(s));
  }

  lemma MultipleIsZero(s: nat)
    ensures Finished(s) == 0 <==> s > 0 && s % 65535 == 0
  {
  }

  /* A change of one word of such data shows, unless it exchanges 0 and 65535 in data that is not all zero. */
  lemma ChangeShows(words: seq<U16>, j: nat, w: U16)
    requires j < |words| && Finished(Sum(words)) == 0 && w != words[j]
    ensures Finished(Sum(words[j := w])) == 0 <==> {w, words[j]} == {0, 65535} && Sum(words[j := w]) > 0
  {
    hide Sum;
    var s, o := Sum(words), words[j];
    SumUpdate(words, j, w);
    MultipleIsZero(s);
    MultipleIsZero(s - o + w);
    var q := s / 65535;
    assert s - o + w == q * 65535 + (w - o);
    NearMultiple(q, w - o);
    assert w - o == 0 - 65535 ==> w == 0 && o == 65535;
  }

  lemma NearMultiple(q: nat, d: int)
    requires -65535 <= d <= 65535 && q * 65535 + d >= 0
    ensures (q * 65535 + d) % 65535 == 0 <==> d == 0 || d == 65535 || d == -65535
  {
  }
}
