/** The `filteredFlares` expression: the search box narrows the list by location. */
module Search {
  import opened Flares
  import opened Text
  import Seqs

  /** `flare.location && flare.location.toLowerCase().includes(searchTerm.toLowerCase())`:
      the location is non-empty and the lower-cased term occurs at some position of the
      lower-cased location. */
  predicate Matches(f: Flare, term: string): (r: bool)
    ensures r <==> f.location != "" && exists i: nat :: OccursAt(LowerStr(f.location), LowerStr(term), i)
  {
    ContainsIffOccurs(LowerStr(f.location), LowerStr(term));
    f.location != "" && Contains(LowerStr(f.location), LowerStr(term))
  }

  /** `flares.filter(...)` with the search term: an order-preserving subsequence of the
      stored list that keeps every occurrence of a matching record and no other record. */
  function Filtered(flares: seq<Flare>, term: string): (r: seq<Flare>)
    ensures Seqs.IsSubsequence(r, flares)
    ensures forall f :: multiset(r)[f] == if Matches(f, term) then multiset(flares)[f] else 0
    ensures forall f :: f in r <==> f in flares && Matches(f, term)
  {
    Seqs.FilterIsSubsequence((f: Flare) => Matches(f, term), flares);
    Seqs.Filter((f: Flare) => Matches(f, term), flares)
  }

  /** With an empty term every normalised record is shown: the `flare.location &&` guard
      never rejects one. */
  lemma EmptyTermKeepsNormalized(data: seq<RawFlare>)
    ensures Filtered(NormalizeAll(data), "") == NormalizeAll(data)
  {
    Seqs.FilterKeepsAll((f: Flare) => Matches(f, ""), NormalizeAll(data));
  }

  /** The case of the term does not matter: terms that lower-case alike select the same records. */
  lemma TermCaseIgnored(flares: seq<Flare>, t1: string, t2: string)
    requires LowerStr(t1) == LowerStr(t2)
    ensures Filtered(flares, t1) == Filtered(flares, t2)
  {
    Seqs.FilterCongruent((f: Flare) => Matches(f, t1), (f: Flare) => Matches(f, t2), flares);
  }

  /** The case of the location does not matter either. */
  lemma LocationCaseIgnored(f: Flare, g: Flare, term: string)
    requires LowerStr(f.location) == LowerStr(g.location)
    ensures Matches(f, term) == Matches(g, term)
  {
    assert |f.location| == |LowerStr(f.location)|;
  }

  /** Only the location is searched: two records with the same location match the same
      terms, whatever their operators and other fields. */
  lemma OnlyLocationSearched(f: Flare, g: Flare, term: string)
    requires g.location == f.location
    ensures Matches(f, term) == Matches(g, term)
  {
  }

  /** A record matching a longer term matches every prefix of it. */
  lemma MatchesPrefix(f: Flare, t: string, u: string)
    requires Matches(f, t + u)
    ensures Matches(f, t)
  {
    LowerStrAppend(t, u);
    ContainsPrefixOfNeedle(LowerStr(f.location), LowerStr(t), LowerStr(u));
  }

  /** Typing more characters can only remove records: the new list is a subsequence of the
      old one, and is what filtering the old one by the new term gives. */
  lemma AppendingNarrows(flares: seq<Flare>, t: string, u: string)
    ensures Seqs.IsSubsequence(Filtered(flares, t + u), Filtered(flares, t))
    ensures Filtered(Filtered(flares, t), t + u) == Filtered(flares, t + u)
  {
    forall f | f in flares && Matches(f, t + u) ensures Matches(f, t) {
      MatchesPrefix(f, t, u);
    }
    Seqs.FilterMonotone((f: Flare) => Matches(f, t + u), (f: Flare) => Matches(f, t), flares);
    Seqs.FilterOfFilter((f: Flare) => Matches(f, t + u), (f: Flare) => Matches(f, t), flares);
  }

  /** Filtering the filtered list again with the same term changes nothing. */
  lemma FilteredIdempotent(flares: seq<Flare>, term: string)
    ensures Filtered(Filtered(flares, term), term) == Filtered(flares, term)
  {
    Seqs.FilterOfFilter((f: Flare) => Matches(f, term), (f: Flare) => Matches(f, term), flares);
  }

  /** An instance of `OnlyLocationSearched`: an operator name is not found by the search box. */
  lemma OperatorNotSearched()
    ensures var acme := Flare(1, 10.0, 2.0, 0.0, "2024-01-01", 31.0, -101.0, "Midland", "Acme Oil");
      !Matches(acme, "Acme") && Filtered([acme], "Acme") == []
  {
    var acme := Flare(1, 10.0, 2.0, 0.0, "2024-01-01", 31.0, -101.0, "Midland", "Acme Oil");
    var loc, term := LowerStr("Midland"), LowerStr("Acme");
    assert |loc| == 7 && |term| == 4 && term[0] == 'a';
    assert loc[0] == 'm' && loc[1] == 'i' && loc[2] == 'd' && loc[3] == 'l';
    ContainsIffOccurs(loc, term);
    forall i: nat ensures !OccursAt(loc, term, i) {
      if i + 4 <= 7 {
        assert loc[i..i + 4][0] == loc[i];
      }
    }
  }
}
