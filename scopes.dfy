/**
 * The scope map carried in every token payload: for each university the
 * user belongs to, the set of scope names granted by the user's role there.
 * It is built by a left fold over the user's `universityUser` records, each
 * record adding (or replacing) the entry of its university.
 */
module Scopes {

  datatype Scope = Scope(name: string)

  datatype Role = Role(scopes: seq<Scope>)

  /** One membership record as the query selects it: the university and the role held there. */
  datatype UniversityUser = UniversityUser(universityId: string, role: Role)

  /** The value stored for one university: `{scopes: {name: true, ...}}`. */
  datatype UniversityScopes = UniversityScopes(scopes: map<string, bool>)

  /** University id to the scopes granted there. */
  type ScopeMap = map<string, UniversityScopes>

  /** The scope names a role lists, duplicates collapsed. */
  function ScopeNames(scopes: seq<Scope>): set<string>
  {
    set i | 0 <= i < |scopes| :: scopes[i].name
  }

  /** The university ids the records mention. */
  function UniversityIds(records: seq<UniversityUser>): set<string>
  {
    set i | 0 <= i < |records| :: records[i].universityId
  }

  /** Record `i` is the last one for its university. */
  predicate IsLastFor(records: seq<UniversityUser>, i: int)
  {
    0 <= i < |records| &&
    forall j :: i < j < |records| ==> records[j].universityId != records[i].universityId
  }

  /** The names of a list of scopes are those of all but its last, plus the last's. */
  lemma ScopeNamesSnoc(scopes: seq<Scope>)
    requires scopes != []
    ensures ScopeNames(scopes) == ScopeNames(scopes[..|scopes| - 1]) + {scopes[|scopes| - 1].name}
  {
    var init := scopes[..|scopes| - 1];
    assert forall i :: 0 <= i < |init| ==> init[i] == scopes[i];
  }

  /**
   * The inner fold: each scope adds `name: true` to the accumulator, so the
   * result holds every listed name once, mapped to true.
   */
  function ScopeNamesMap(scopes: seq<Scope>): (r: map<string, bool>)
    ensures r.Keys == ScopeNames(scopes)
    ensures forall n :: n in r ==> r[n]
  {
    if scopes == [] then map[]
    else
      ScopeNamesSnoc(scopes);
      ScopeNamesMap(scopes[..|scopes| - 1])[scopes[|scopes| - 1].name := true]
  }

  /** The entry one record contributes to the outer fold. */
  function ScopesEntry(record: UniversityUser): UniversityScopes
  {
    UniversityScopes(ScopeNamesMap(record.role.scopes))
  }

  /** The ids of a list of records are those of all but its last, plus the last's. */
  lemma UniversityIdsSnoc(records: seq<UniversityUser>)
    requires records != []
    ensures UniversityIds(records) == UniversityIds(records[..|records| - 1]) + {records[|records| - 1].universityId}
  {
    var init := records[..|records| - 1];
    assert forall i :: 0 <= i < |init| ==> init[i] == records[i];
  }

  /**
   * A record that is the last for its university, other than the final
   * record, is the last for it among all but the final record too, and
   * names another university than the final record.
   */
  lemma IsLastForSnoc(records: seq<UniversityUser>, i: int)
    requires IsLastFor(records, i) && i < |records| - 1
    ensures IsLastFor(records[..|records| - 1], i)
    ensures records[i].universityId != records[|records| - 1].universityId
  {
  }

  /** Each university's entry in `m` comes from the last record for it. */
  ghost predicate EntriesFromLast(records: seq<UniversityUser>, m: ScopeMap)
  {
    forall i :: IsLastFor(records, i) ==> records[i].universityId in m && m[records[i].universityId] == ScopesEntry(records[i])
  }

  /** One step of the outer fold keeps every entry coming from the last record for its university. */
  lemma EntriesFromLastSnoc(records: seq<UniversityUser>, m: ScopeMap)
    requires records != [] && EntriesFromLast(records[..|records| - 1], m)
    ensures EntriesFromLast(records, m[records[|records| - 1].universityId := ScopesEntry(records[|records| - 1])])
  {
    var init, last := records[..|records| - 1], records[|records| - 1];
    forall i | IsLastFor(records, i) && i < |init|
      ensures records[i].universityId in m && m[records[i].universityId] == ScopesEntry(records[i])
    {
      IsLastForSnoc(records, i);
      assert init[i] == records[i];
    }
  }

  /**
   * The outer fold: each record overwrites the entry of its university with
   * the names of its role's scopes. The keys are exactly the ids that occur,
   * and each university's entry comes from the LAST record that names it.
   */
  function UniversitiesScopes(records: seq<UniversityUser>): (r: ScopeMap)
    ensures r.Keys == UniversityIds(records)
    ensures forall i :: IsLastFor(records, i) ==> r[records[i].universityId] == ScopesEntry(records[i])
  {
    if records == [] then map[]
    else
      var init := records[..|records| - 1];
      var last := records[|records| - 1];
      var m := UniversitiesScopes(init);
      UniversityIdsSnoc(records);
      assert EntriesFromLast(init, m);
      EntriesFromLastSnoc(records, m);
      m[last.universityId := ScopesEntry(last)]
  }

  /** No memberships gives the empty map, and only no memberships does. */
  lemma NoMembershipsNoScopes(records: seq<UniversityUser>)
    ensures UniversitiesScopes(records) == map[] <==> records == []
  {
    if records != [] {
      assert records[0].universityId in UniversityIds(records);
    }
  }

  /**
   * Folding a concatenation is the right-biased union of the two folds: the
   * later records' entries replace the earlier ones for shared ids.
   */
  lemma {:induction false} ScopesOfConcat(p: seq<UniversityUser>, q: seq<UniversityUser>)
    ensures UniversitiesScopes(p + q) == UniversitiesScopes(p) + UniversitiesScopes(q)
  {
    if q == [] {
      assert p + q == p;
    } else {
      var init := q[..|q| - 1];
      var last := q[|q| - 1];
      ScopesOfConcat(p, init);
      ConcatSnoc(p, q);
      FoldSnoc(q);
      UnionUpdate(UniversitiesScopes(p), UniversitiesScopes(init), last.universityId, ScopesEntry(last));
    }
  }

  /** Folding `p + q` for a non-empty `q`: the fold of `p` and all but the last of `q`, updated by the last. */
  lemma ConcatSnoc(p: seq<UniversityUser>, q: seq<UniversityUser>)
    requires q != []
    ensures UniversitiesScopes(p + q) ==
            UniversitiesScopes(p + q[..|q| - 1])[q[|q| - 1].universityId := ScopesEntry(q[|q| - 1])]
  {
    assert (p + q)[..|p + q| - 1] == p + q[..|q| - 1];
    assert (p + q)[|p + q| - 1] == q[|q| - 1];
    FoldSnoc(p + q);
  }

  /** The outer fold of a non-empty list: the fold of all but the last record, updated by the last. */
  lemma FoldSnoc(records: seq<UniversityUser>)
    requires records != []
    ensures UniversitiesScopes(records) ==
            UniversitiesScopes(records[..|records| - 1])[records[|records| - 1].universityId := ScopesEntry(records[|records| - 1])]
  {
  }

  lemma UnionUpdate<K, V>(a: map<K, V>, b: map<K, V>, k: K, v: V)
    ensures (a + b)[k := v] == a + b[k := v]
  {
  }

  /**
   * A later record for a university replaces an earlier one entirely: the
   * earlier record's scopes leave no trace in the entry.
   */
  lemma LaterRecordReplaces(p: seq<UniversityUser>, earlier: UniversityUser, q: seq<UniversityUser>, later: UniversityUser)
    requires earlier.universityId == later.universityId
    ensures UniversitiesScopes(p + [earlier] + q + [later])[later.universityId] == ScopesEntry(later)
  {
    var records := p + [earlier] + q + [later];
    assert IsLastFor(records, |records| - 1);
  }

  /** Only the set of names matters: order and repetition of a role's scopes do not. */
  lemma ScopeNamesSetSemantics(s: seq<Scope>, t: seq<Scope>)
    requires ScopeNames(s) == ScopeNames(t)
    ensures ScopeNamesMap(s) == ScopeNamesMap(t)
  {
  }

  /** Listing a scope name a second time adds no entry. */
  lemma DuplicateScopeNameIgnored(s: seq<Scope>, x: Scope)
    requires x.name in ScopeNames(s)
    ensures ScopeNamesMap(s + [x]) == ScopeNamesMap(s)
  {
    assert ScopeNames(s + [x]) == ScopeNames(s) by {
      assert forall i :: 0 <= i < |s| ==> (s + [x])[i] == s[i];
    }
    ScopeNamesSetSemantics(s + [x], s);
  }
}
