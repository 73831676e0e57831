/** Ordered key/value lists: the shape shared by `URLSearchParams`, `FormData` and the
    JSON bodies that the API wrappers send. */
module KeyValues {
  import opened JsValues
  import opened Strings

  datatype Entry<V> = Entry(key: string, value: V)

  function Keys<V>(es: seq<Entry<V>>): (ks: seq<string>)
    ensures |ks| == |es| && forall i :: 0 <= i < |es| ==> ks[i] == es[i].key
  {
    if es == [] then [] else [es[0].key] + Keys(es[1..])
  }

  /** `get(key)`: the value of the first entry with that key. */
  function Lookup<V>(es: seq<Entry<V>>, key: string): (r: Option<V>)
    ensures r.None? <==> key !in Keys(es)
    ensures r.Some? ==> Entry(key, r.value) in es
  {
    if es == [] then None
    else if es[0].key == key then Some(es[0].value)
    else
      assert Keys(es) == [es[0].key] + Keys(es[1..]);
      var r := Lookup(es[1..], key);
      assert r.Some? ==> Entry(key, r.value) in es[1..];
      r
  }

  /** Looking up in a concatenation: the first list is searched first. */
  lemma {:induction false} LookupConcat<V>(a: seq<Entry<V>>, b: seq<Entry<V>>, key: string)
    ensures Lookup(a + b, key) == if Lookup(a, key).Some? then Lookup(a, key) else Lookup(b, key)
  {
    if a != [] {
      assert (a + b)[0] == a[0] && (a + b)[1..] == a[1..] + b;
      LookupConcat(a[1..], b, key);
    } else {
      assert a + b == b;
    }
  }

  /** No key occurs twice. */
  predicate DistinctKeys<V>(es: seq<Entry<V>>)
  {
    forall i, j :: 0 <= i < j < |es| ==> es[i].key != es[j].key
  }

  /** `xs` is `ys` with some elements left out, the rest kept in order. */
  predicate IsSubsequence(xs: seq<string>, ys: seq<string>)
    decreases |ys|
  {
    if xs == [] then true
    else if ys == [] then false
    else if xs[0] == ys[0] then IsSubsequence(xs[1..], ys[1..])
    else IsSubsequence(xs, ys[1..])
  }

  /** A subsequence of a list without repeats has no repeats. */
  lemma {:induction false} SubsequenceDistinct(xs: seq<string>, ys: seq<string>)
    requires IsSubsequence(xs, ys)
    requires forall i, j :: 0 <= i < j < |ys| ==> ys[i] != ys[j]
    ensures forall i, j :: 0 <= i < j < |xs| ==> xs[i] != xs[j]
    ensures forall i :: 0 <= i < |xs| ==> xs[i] in ys
    decreases |ys|
  {
    if xs != [] && ys != [] {
      if xs[0] == ys[0] {
        SubsequenceDistinct(xs[1..], ys[1..]);
        assert forall i :: 1 <= i < |xs| ==> xs[i] == xs[1..][i - 1] && xs[i] in ys[1..];
        assert forall k :: 0 <= k < |ys| - 1 ==> ys[1..][k] == ys[k + 1];
      } else {
        SubsequenceDistinct(xs, ys[1..]);
      }
    }
  }

  /** `k=v` pairs joined by `&`, what `toString()` gives when no character needs escaping. */
  function Serialize(es: seq<Entry<string>>): string
  {
    if es == [] then ""
    else if |es| == 1 then es[0].key + "=" + es[0].value
    else es[0].key + "=" + es[0].value + "&" + Serialize(es[1..])
  }

  /** The serialised form is empty exactly when there are no entries, since every entry
      writes at least its `=`. */
  lemma SerializeEmpty(es: seq<Entry<string>>)
    ensures Serialize(es) == "" <==> es == []
  {
    if es != [] {
      assert |Serialize(es)| >= |es[0].key + "=" + es[0].value|;
    }
  }

  /** One `name=value` piece of a query string: split at its first `=`; without one the
      whole piece is the name and the value is empty. */
  function ParsePair(s: string): Entry<string>
  {
    match IndexOf(s, "=")
    case None => Entry(s, "")
    case Some(i) => Entry(s[..i], s[i + 1..])
  }

  /** Reading a query string back as the application/x-www-form-urlencoded parser of the
      WHATWG URL standard splits it: pieces between `&`, empty pieces skipped (no
      percent-decoding, matching `Serialize`). */
  function ParseQuery(s: string): seq<Entry<string>>
    decreases |s|
  {
    match IndexOf(s, "&")
    case None => if s == "" then [] else [ParsePair(s)]
    case Some(i) =>
      var rest := ParseQuery(s[i + 1..]);
      if i == 0 then rest else [ParsePair(s[..i])] + rest
  }

  /** Keys hold neither `&` nor `=`, values hold no `&`: nothing that would split a piece. */
  predicate Unambiguous(es: seq<Entry<string>>)
  {
    forall n :: 0 <= n < |es| ==>
      (forall j :: 0 <= j < |es[n].key| ==> es[n].key[j] != '&' && es[n].key[j] != '=') &&
      (forall j :: 0 <= j < |es[n].value| ==> es[n].value[j] != '&')
  }

  /** One piece reads back as the entry it was written from. */
  lemma ParsePairRoundTrip(e: Entry<string>)
    requires Unambiguous([e])
    ensures ParsePair(e.key + "=" + e.value) == e
    ensures forall j :: 0 <= j < |e.key + "=" + e.value| ==> (e.key + "=" + e.value)[j] != '&'
  {
    var kv := e.key + "=" + e.value;
    assert [e][0] == e;
    forall j | 0 <= j < |e.key|
      ensures kv[j] != '='
    {
      assert kv[j] == e.key[j];
    }
    IndexOfChar(kv, '=', |e.key|);
    assert kv[..|e.key|] == e.key && kv[|e.key| + 1..] == e.value;
    forall j | 0 <= j < |kv|
      ensures kv[j] != '&'
    {
      if j < |e.key| {
        assert kv[j] == e.key[j];
      } else if j > |e.key| {
        assert kv[j] == e.value[j - |e.key| - 1];
      }
    }
  }

  /** A piece followed by `&` reads as its entry, then whatever follows. */
  lemma ParseFirstPiece(e: Entry<string>, rest: string)
    requires Unambiguous([e])
    ensures ParseQuery(e.key + "=" + e.value + "&" + rest) == [e] + ParseQuery(rest)
  {
    var kv := e.key + "=" + e.value;
    var s := kv + "&" + rest;
    ParsePairRoundTrip(e);
    forall j | 0 <= j < |kv|
      ensures s[j] != '&'
    {
      assert s[j] == kv[j];
    }
    IndexOfChar(s, '&', |kv|);
    assert s[..|kv|] == kv && s[|kv| + 1..] == rest;
  }

  /** A last piece reads as its entry alone. */
  lemma ParseLastPiece(e: Entry<string>)
    requires Unambiguous([e])
    ensures ParseQuery(e.key + "=" + e.value) == [e]
  {
    ParsePairRoundTrip(e);
    IndexOfCharAbsent(e.key + "=" + e.value, '&');
  }

  lemma UnambiguousTail(es: seq<Entry<string>>)
    requires es != [] && Unambiguous(es)
    ensures Unambiguous(es[1..])
  {
    assert forall n :: 0 <= n < |es[1..]| ==> es[1..][n] == es[n + 1];
  }

  /** Reading back a serialised list gives the list, as long as no key or value holds a
      separator. */
  lemma {:induction false} SerializeRoundTrip(es: seq<Entry<string>>)
    requires Unambiguous(es)
    ensures ParseQuery(Serialize(es)) == es
    decreases |es|
  {
    if es != [] {
      var e := es[0];
      assert Unambiguous([e]) by {
        assert [e][0] == es[0];
      }
      if |es| == 1 {
        ParseLastPiece(e);
      } else {
        UnambiguousTail(es);
        SerializeRoundTrip(es[1..]);
        ParseFirstPiece(e, Serialize(es[1..]));
        assert es == [e] + es[1..];
      }
    }
  }

  /** One conditional `append(key, value)`: made only when `present` holds. */
  datatype Candidate<V> = Candidate(present: bool, key: string, value: V)

  function CandidateKeys<V>(cs: seq<Candidate<V>>): (ks: seq<string>)
    ensures |ks| == |cs| && forall i :: 0 <= i < |cs| ==> ks[i] == cs[i].key
  {
    if cs == [] then [] else [cs[0].key] + CandidateKeys(cs[1..])
  }

  /** The entry one conditional append writes: one entry, or none. */
  function FieldOf<V>(c: Candidate<V>): seq<Entry<V>>
  {
    if c.present then [Entry(c.key, c.value)] else []
  }

  /** The entries a run of conditional appends produces. */
  function Appended<V>(cs: seq<Candidate<V>>): seq<Entry<V>>
  {
    if cs == [] then [] else FieldOf(cs[0]) + Appended(cs[1..])
  }

  /** One more conditional append adds its entry at the end. */
  lemma {:induction false} AppendedSnoc<V>(cs: seq<Candidate<V>>, c: Candidate<V>)
    ensures Appended(cs + [c]) == Appended(cs) + FieldOf(c)
  {
    if cs == [] {
      assert [c][1..] == [];
    } else {
      assert (cs + [c])[1..] == cs[1..] + [c];
      AppendedSnoc(cs[1..], c);
    }
  }

  /** The entries of the first `k + 1` candidates: those of the first `k`, then the next. */
  lemma AppendedPrefix<V>(cs: seq<Candidate<V>>, k: nat)
    requires k < |cs|
    ensures Appended(cs[..k + 1]) == Appended(cs[..k]) + FieldOf(cs[k])
  {
    assert cs[..k + 1] == cs[..k] + [cs[k]];
    AppendedSnoc(cs[..k], cs[k]);
  }

  /** The keys written are the candidate keys left out where the condition fails. */
  lemma {:induction false} AppendedKeys<V>(cs: seq<Candidate<V>>)
    ensures IsSubsequence(Keys(Appended(cs)), CandidateKeys(cs))
  {
    if cs != [] {
      AppendedKeys(cs[1..]);
      var rest := Appended(cs[1..]);
      if cs[0].present {
        assert Keys(Appended(cs)) == [cs[0].key] + Keys(rest) by {
          assert FieldOf(cs[0]) == [Entry(cs[0].key, cs[0].value)];
        }
        assert ([cs[0].key] + Keys(rest))[1..] == Keys(rest);
      } else {
        assert Appended(cs) == rest;
        SubsequenceOfTail(Keys(rest), CandidateKeys(cs));
      }
    }
  }

  /** Leaving out the head of `ys` keeps a subsequence of its tail a subsequence. */
  lemma {:induction false} SubsequenceOfTail(xs: seq<string>, ys: seq<string>)
    requires ys != [] && IsSubsequence(xs, ys[1..])
    ensures IsSubsequence(xs, ys)
    decreases |ys|, |xs|
  {
    if xs != [] && xs[0] == ys[0] {
      SubsequenceDropHead(xs, ys[1..]);
    }
  }

  /** A subsequence stays one when its first element is dropped. */
  lemma {:induction false} SubsequenceDropHead(xs: seq<string>, ys: seq<string>)
    requires xs != [] && IsSubsequence(xs, ys)
    ensures IsSubsequence(xs[1..], ys)
    decreases |ys|, |xs|
  {
    if ys != [] {
      if xs[0] == ys[0] {
        if ys[1..] != [] {
          SubsequenceOfTail(xs[1..], ys);
        } else {
          assert xs[1..] == [];
        }
      } else {
        SubsequenceDropHead(xs, ys[1..]);
        SubsequenceOfTail(xs[1..], ys);
      }
    }
  }

  /** No two candidates share a key. */
  predicate DistinctCandidateKeys<V>(cs: seq<Candidate<V>>)
  {
    forall a, b :: 0 <= a < b < |cs| ==> cs[a].key != cs[b].key
  }

  /** Dropping the first candidate keeps the keys distinct, and the first key is not among
      the rest. */
  lemma DistinctCandidateKeysTail<V>(cs: seq<Candidate<V>>)
    requires cs != [] && DistinctCandidateKeys(cs)
    ensures DistinctCandidateKeys(cs[1..])
    ensures forall a :: 0 <= a < |cs[1..]| ==> cs[1..][a].key != cs[0].key
  {
    assert forall a :: 0 <= a < |cs[1..]| ==> cs[1..][a] == cs[a + 1];
  }

  /** With distinct candidate keys, a key maps to its candidate's value exactly when that
      candidate's condition holds. */
  lemma {:induction false} AppendedLookup<V>(cs: seq<Candidate<V>>, i: nat)
    requires DistinctCandidateKeys(cs)
    requires i < |cs|
    ensures Lookup(Appended(cs), cs[i].key) == if cs[i].present then Some(cs[i].value) else None
  {
    var key := cs[i].key;
    LookupConcat(FieldOf(cs[0]), Appended(cs[1..]), key);
    DistinctCandidateKeysTail(cs);
    if i > 0 {
      assert cs[0].key != key;
      assert cs[i] == cs[1..][i - 1];
      AppendedLookup(cs[1..], i - 1);
    } else {
      AppendedMissing(cs[1..], key);
    }
  }

  /** A key no candidate carries is never written. */
  lemma {:induction false} AppendedMissing<V>(cs: seq<Candidate<V>>, key: string)
    requires forall a :: 0 <= a < |cs| ==> cs[a].key != key
    ensures Lookup(Appended(cs), key).None?
  {
    if cs != [] {
      LookupConcat(FieldOf(cs[0]), Appended(cs[1..]), key);
      AppendedMissing(cs[1..], key);
    }
  }

  /** With distinct candidate keys, no key is written twice. */
  lemma AppendedDistinct<V>(cs: seq<Candidate<V>>)
    requires DistinctCandidateKeys(cs)
    ensures DistinctKeys(Appended(cs))
  {
    AppendedKeys(cs);
    SubsequenceDistinct(Keys(Appended(cs)), CandidateKeys(cs));
  }

  /** A run of conditional appends writes nothing exactly when no condition holds. */
  lemma {:induction false} AppendedEmpty<V>(cs: seq<Candidate<V>>)
    ensures Appended(cs) == [] <==> forall i :: 0 <= i < |cs| ==> !cs[i].present
  {
    if cs != [] {
      AppendedEmpty(cs[1..]);
      assert forall i :: 1 <= i < |cs| ==> cs[i] == cs[1..][i - 1];
    }
  }

  /** One step of a run of conditional appends, from a known prefix. */
  lemma AppendedStep<V>(cs: seq<Candidate<V>>, k: nat, before: seq<Entry<V>>, c: Candidate<V>)
    requires k < |cs| && cs[k] == c && Appended(cs[..k]) == before
    ensures Appended(cs[..k + 1]) == before + FieldOf(c)
  {
    AppendedPrefix(cs, k);
  }

  /** Two runs of conditional appends, one after the other. */
  lemma {:induction false} AppendedConcat<V>(xs: seq<Candidate<V>>, ys: seq<Candidate<V>>)
    ensures Appended(xs + ys) == Appended(xs) + Appended(ys)
  {
    if xs == [] {
      assert xs + ys == ys;
    } else {
      assert (xs + ys)[0] == xs[0] && (xs + ys)[1..] == xs[1..] + ys;
      AppendedConcat(xs[1..], ys);
    }
  }

  /** Four conditional appends, written out. */
  lemma AppendedFour<V>(c0: Candidate<V>, c1: Candidate<V>, c2: Candidate<V>, c3: Candidate<V>)
    ensures Appended([c0, c1, c2, c3]) == FieldOf(c0) + FieldOf(c1) + FieldOf(c2) + FieldOf(c3)
  {
    var cs := [c0, c1, c2, c3];
    assert cs[..0] == [];
    AppendedStep(cs, 0, [], c0);
    assert [] + FieldOf(c0) == FieldOf(c0);
    AppendedStep(cs, 1, FieldOf(c0), c1);
    AppendedStep(cs, 2, FieldOf(c0) + FieldOf(c1), c2);
    AppendedStep(cs, 3, FieldOf(c0) + FieldOf(c1) + FieldOf(c2), c3);
    assert cs[..4] == cs;
  }

  /** Eight conditional appends, written out. */
  lemma AppendedEight<V>(c0: Candidate<V>, c1: Candidate<V>, c2: Candidate<V>, c3: Candidate<V>,
                         c4: Candidate<V>, c5: Candidate<V>, c6: Candidate<V>, c7: Candidate<V>)
    ensures Appended([c0, c1, c2, c3, c4, c5, c6, c7])
         == FieldOf(c0) + FieldOf(c1) + FieldOf(c2) + FieldOf(c3)
          + FieldOf(c4) + FieldOf(c5) + FieldOf(c6) + FieldOf(c7)
  {
    var xs, ys := [c0, c1, c2, c3], [c4, c5, c6, c7];
    assert [c0, c1, c2, c3, c4, c5, c6, c7] == xs + ys;
    AppendedConcat(xs, ys);
    AppendedFour(c0, c1, c2, c3);
    AppendedFour(c4, c5, c6, c7);
    var l := FieldOf(c0) + FieldOf(c1) + FieldOf(c2) + FieldOf(c3);
    var f4, f5, f6, f7 := FieldOf(c4), FieldOf(c5), FieldOf(c6), FieldOf(c7);
    ConcatAssociative(l, (f4 + f5) + f6, f7);
    ConcatAssociative(l, f4 + f5, f6);
    ConcatAssociative(l, f4, f5);
  }

  /** Three conditional appends, written out. */
  lemma AppendedThree<V>(c0: Candidate<V>, c1: Candidate<V>, c2: Candidate<V>)
    ensures Appended([c0, c1, c2]) == FieldOf(c0) + FieldOf(c1) + FieldOf(c2)
  {
    var cs := [c0, c1, c2];
    assert cs[..0] == [];
    AppendedStep(cs, 0, [], c0);
    assert [] + FieldOf(c0) == FieldOf(c0);
    AppendedStep(cs, 1, FieldOf(c0), c1);
    AppendedStep(cs, 2, FieldOf(c0) + FieldOf(c1), c2);
    assert cs[..3] == cs;
  }

  /** A `URLSearchParams` or `FormData` object: its entries in the order they were appended. */
  class EntryList<V> {
    var entries: seq<Entry<V>>

    constructor()
      ensures entries == []
    {
      entries := [];
    }

    method Append(key: string, value: V)
      modifies this
      ensures entries == old(entries) + [Entry(key, value)]
    {
      entries := entries + [Entry(key, value)];
    }

    /** `if (condition) list.append(key, value)`. */
    method AppendWhen(c: Candidate<V>)
      modifies this
      ensures entries == old(entries) + FieldOf(c)
    {
      if c.present {
        Append(c.key, c.value);
      }
    }
  }
}
