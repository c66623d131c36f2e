// The dictionary view's list: the vocabulary filtered by the search box and
// sorted A-Z by the English word (filterAndSortDictionary, sortAZ).

module Dictionary {
  import opened Vocab

  /** The browser's string operations the search relies on, whose Unicode
      behaviour is not modelled: `lower` is String.prototype.toLowerCase,
      `trim` is String.prototype.trim, and `leq(a, b)` stands for
      `a.localeCompare(b) <= 0`. */
  datatype TextOps = TextOps(lower: string -> string, trim: string -> string, leq: (string, string) -> bool)

  /** localeCompare orders all strings: total and transitive. */
  ghost predicate TotalPreorder(leq: (string, string) -> bool)
  {
    && (forall a, b :: leq(a, b) || leq(b, a))
    && (forall a, b, c :: leq(a, b) && leq(b, c) ==> leq(a, c))
  }

  /** String.prototype.includes: `t` occurs in `s` at some position. */
  predicate Includes(s: string, t: string)
  {
    t <= s || (s != [] && Includes(s[1..], t))
  }

  /** `t` occurs in `s` starting at position i. */
  predicate OccursAt(s: string, t: string, i: int)
  {
    0 <= i <= |s| - |t| && s[i..i + |t|] == t
  }

  /** The recursive search agrees with "occurs at some position". */
  lemma {:induction false} IncludesAt(s: string, t: string)
    ensures Includes(s, t) <==> exists i :: OccursAt(s, t, i)
  {
    if s != [] {
      IncludesAt(s[1..], t);
      if t <= s {
        assert OccursAt(s, t, 0);
      } else if Includes(s[1..], t) {
        var i :| OccursAt(s[1..], t, i);
        assert s[i + 1..i + 1 + |t|] == s[1..][i..i + |t|];
        assert OccursAt(s, t, i + 1);
      }
      if exists i :: OccursAt(s, t, i) {
        var i :| OccursAt(s, t, i);
        if i > 0 {
          assert s[1..][i - 1..i - 1 + |t|] == s[i..i + |t|];
          assert OccursAt(s[1..], t, i - 1);
        } else {
          assert t <= s;
        }
      }
    } else if t == [] {
      assert OccursAt(s, t, 0);
    }
  }

  /** The search filter: the lowercased English word or translation contains
      the lowercased, trimmed search term. */
  predicate Matches(e: Entry, searchValue: string, ops: TextOps)
  {
    var term := ops.trim(ops.lower(searchValue));
    Includes(ops.lower(e.en), term) || Includes(ops.lower(e.ru), term)
  }

  /** VOCAB.filter(...): the matching entries, in their original order. */
  function Filter(vocab: seq<Entry>, searchValue: string, ops: TextOps): (r: seq<Entry>)
    ensures |r| <= |vocab|
  {
    if vocab == [] then []
    else if Matches(vocab[0], searchValue, ops) then [vocab[0]] + Filter(vocab[1..], searchValue, ops)
    else Filter(vocab[1..], searchValue, ops)
  }

  /** Exactly the matching entries, each as often as in the vocabulary. */
  lemma {:induction false} FilterSpec(vocab: seq<Entry>, searchValue: string, ops: TextOps)
    ensures forall e :: multiset(Filter(vocab, searchValue, ops))[e] ==
                        (if Matches(e, searchValue, ops) then multiset(vocab)[e] else 0)
  {
    if vocab != [] {
      FilterSpec(vocab[1..], searchValue, ops);
      assert vocab == [vocab[0]] + vocab[1..];
    }
  }

  /** Ordered by the English word: no later entry sorts before an earlier one. */
  ghost predicate SortedByEn(s: seq<Entry>, leq: (string, string) -> bool)
  {
    forall i, j :: 0 <= i < j < |s| ==> leq(s[i].en, s[j].en)
  }

  /** Insert `e` before the first entry it does not sort after. */
  function Insert(e: Entry, s: seq<Entry>, leq: (string, string) -> bool): (r: seq<Entry>)
    ensures |r| == |s| + 1
  {
    if s == [] || leq(e.en, s[0].en) then [e] + s
    else [s[0]] + Insert(e, s[1..], leq)
  }

  lemma {:induction false} InsertPermutes(e: Entry, s: seq<Entry>, leq: (string, string) -> bool)
    ensures multiset(Insert(e, s, leq)) == multiset(s) + multiset{e}
  {
    if s != [] && !leq(e.en, s[0].en) {
      InsertPermutes(e, s[1..], leq);
      assert s == [s[0]] + s[1..];
    }
  }

  /** Everything in `s` sorts at or after `x`. */
  ghost predicate AllAfter(x: string, s: seq<Entry>, leq: (string, string) -> bool)
  {
    forall k :: 0 <= k < |s| ==> leq(x, s[k].en)
  }

  lemma {:induction false} InsertAllAfter(x: string, e: Entry, s: seq<Entry>, leq: (string, string) -> bool)
    requires AllAfter(x, s, leq) && leq(x, e.en)
    ensures AllAfter(x, Insert(e, s, leq), leq)
  {
    if s != [] && !leq(e.en, s[0].en) {
      InsertAllAfter(x, e, s[1..], leq);
    }
  }

  lemma {:induction false} InsertSorted(e: Entry, s: seq<Entry>, leq: (string, string) -> bool)
    requires TotalPreorder(leq)
    requires SortedByEn(s, leq)
    ensures SortedByEn(Insert(e, s, leq), leq)
  {
    if s != [] {
      if leq(e.en, s[0].en) {
        assert AllAfter(e.en, s, leq) by {
          forall k | 0 <= k < |s| ensures leq(e.en, s[k].en) {
            if k > 0 { assert leq(s[0].en, s[k].en); }
          }
        }
      } else {
        var rest := s[1..];
        InsertSorted(e, rest, leq);
        assert AllAfter(s[0].en, rest, leq) by {
          forall k | 0 <= k < |rest| ensures leq(s[0].en, rest[k].en) {
            assert rest[k] == s[k + 1];
          }
        }
        InsertAllAfter(s[0].en, e, rest, leq);
      }
    }
  }

  /** Array.prototype.sort with the `en` comparator, as an insertion sort. */
  function SortByEn(s: seq<Entry>, leq: (string, string) -> bool): (r: seq<Entry>)
    ensures |r| == |s|
  {
    if s == [] then [] else Insert(s[0], SortByEn(s[1..], leq), leq)
  }

  /** The sort returns the same entries, ordered by the English word. */
  lemma {:induction false} SortByEnSpec(s: seq<Entry>, leq: (string, string) -> bool)
    requires TotalPreorder(leq)
    ensures multiset(SortByEn(s, leq)) == multiset(s)
    ensures SortedByEn(SortByEn(s, leq), leq)
  {
    if s != [] {
      SortByEnSpec(s[1..], leq);
      InsertPermutes(s[0], SortByEn(s[1..], leq), leq);
      InsertSorted(s[0], SortByEn(s[1..], leq), leq);
      assert s == [s[0]] + s[1..];
    }
  }

  /** filterAndSortDictionary: the matching entries sorted A-Z. */
  function FilterAndSort(vocab: seq<Entry>, searchValue: string, ops: TextOps): (r: seq<Entry>)
  {
    SortByEn(Filter(vocab, searchValue, ops), ops.leq)
  }

  /** The dictionary list holds exactly the matching vocabulary entries, none
      added or dropped, ordered by the English word. */
  lemma FilterAndSortSpec(vocab: seq<Entry>, searchValue: string, ops: TextOps)
    requires TotalPreorder(ops.leq)
    ensures forall e :: multiset(FilterAndSort(vocab, searchValue, ops))[e] ==
                        (if Matches(e, searchValue, ops) then multiset(vocab)[e] else 0)
    ensures forall e :: e in FilterAndSort(vocab, searchValue, ops) <==> e in vocab && Matches(e, searchValue, ops)
    ensures SortedByEn(FilterAndSort(vocab, searchValue, ops), ops.leq)
  {
    var filtered := Filter(vocab, searchValue, ops);
    FilterSpec(vocab, searchValue, ops);
    SortByEnSpec(filtered, ops.leq);
    forall e ensures e in FilterAndSort(vocab, searchValue, ops) <==> e in vocab && Matches(e, searchValue, ops) {
      assert e in FilterAndSort(vocab, searchValue, ops) <==> e in multiset(FilterAndSort(vocab, searchValue, ops));
      assert e in vocab <==> e in multiset(vocab);
    }
  }
}
