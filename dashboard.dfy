/** The dashboard: totals over the whole contact list and the referents'
    leaderboard. Each referent's row is accumulated entity by entity, then the
    rows are ranked by revenue. */
module Dashboard {

  import opened JsValues
  import opened Collections
  import opened Sorting
  import opened Domain

  const GoalRevenue: int := 8000

  /** `entities.reduce((sum, e) => sum + (parseFloat(e.Recette) || 0), 0)` */
  function TotalRevenue(entities: seq<Entity>): int {
    SumBy(entities, Amount)
  }

  /** The number of signed deals, whatever the referent. */
  function SignedDeals(entities: seq<Entity>): (r: nat)
    ensures r <= |entities|
  {
    Count(entities, IsSigned)
  }

  /** Signed deals as a percentage of all entities, before `toFixed(1)`;
      0 for an empty list. */
  function ConversionRate(entities: seq<Entity>): (r: real)
    ensures |entities| == 0 ==> r == 0.0
    ensures |entities| > 0 ==> r * (|entities| as real) == (SignedDeals(entities) as real) * 100.0
    ensures 0.0 <= r <= 100.0
  {
    if |entities| > 0 then
      PercentOfWhole(SignedDeals(entities), |entities|);
      (SignedDeals(entities) as real / |entities| as real) * 100.0
    else 0.0
  }

  /** A part of a positive whole is between 0 and 100 percent of it. */
  lemma PercentOfWhole(k: nat, n: nat)
    requires 0 < n && k <= n
    ensures (k as real / n as real) * 100.0 * (n as real) == (k as real) * 100.0
    ensures 0.0 <= (k as real / n as real) * 100.0 <= 100.0
  {
    var q := k as real / n as real;
    assert q * (n as real) == k as real;
    assert q <= 1.0;
  }

  /** The overall progress towards the goal, before `toFixed(1)`. */
  function GoalProgress(entities: seq<Entity>): (r: real)
    ensures r >= 100.0 <==> TotalRevenue(entities) >= GoalRevenue
    ensures r * (GoalRevenue as real) == (TotalRevenue(entities) as real) * 100.0
  {
    (TotalRevenue(entities) as real / GoalRevenue as real) * 100.0
  }

  /** One leaderboard row: `{ name, revenue, signedCount, refusedCount, totalCount }`. */
  datatype Referent = Referent(name: Value, revenue: int, signedCount: nat, refusedCount: nat, totalCount: nat)

  /** `e.Référent_partenariat_club || 'Non attribué'` */
  function RefOf(e: Entity): Value {
    Or(Get(e, ReferentField), Str(Unassigned))
  }

  /** The entity takes part in the leaderboard. */
  predicate Counted(e: Entity) {
    !StrictEq(RefOf(e), Str(Unassigned))
  }

  /** The property name of `referentMap` the entity is added under. */
  function KeyOf(e: Entity): string {
    ToStr(RefOf(e))
  }

  /** The property name a row is stored under. */
  function Key(r: Referent): string {
    ToStr(r.name)
  }

  /** The entities a row is made of. */
  function BelongsTo(key: string): Entity -> bool {
    e => Counted(e) && KeyOf(e) == key
  }

  function SignedIn(key: string): Entity -> bool {
    e => BelongsTo(key)(e) && IsSigned(e)
  }

  /** `else if (e.Statuts === 'Refusé')` */
  function RefusedIn(key: string): Entity -> bool {
    e => BelongsTo(key)(e) && !IsSigned(e) && StrictEq(Get(e, "Statuts"), Str(Refused))
  }

  /** What the entity adds to its row. */
  function Bump(r: Referent, e: Entity): Referent {
    r.(revenue := r.revenue + Amount(e), totalCount := r.totalCount + 1,
       signedCount := if IsSigned(e) then r.signedCount + 1 else r.signedCount,
       refusedCount := if !IsSigned(e) && StrictEq(Get(e, "Statuts"), Str(Refused)) then r.refusedCount + 1
                       else r.refusedCount)
  }

  /** The position of the row stored under `key`, or `|rows|` when there is none. */
  function IndexOf(rows: seq<Referent>, key: string): (r: nat)
    ensures r <= |rows|
    ensures r < |rows| ==> Key(rows[r]) == key
    ensures r == |rows| ==> forall i :: 0 <= i < |rows| ==> Key(rows[i]) != key
    decreases |rows|
  {
    if rows == [] then 0
    else if Key(rows[0]) == key then 0
    else 1 + IndexOf(rows[1..], key)
  }

  /** One turn of the `forEach`: a new referent gets a fresh row at the end
      (`Object.values` lists rows in insertion order). */
  function Add(rows: seq<Referent>, e: Entity): seq<Referent> {
    if !Counted(e) then rows
    else
      var j := IndexOf(rows, KeyOf(e));
      if j < |rows| then rows[j := Bump(rows[j], e)]
      else rows + [Bump(Referent(RefOf(e), 0, 0, 0, 0), e)]
  }

  /** `Object.values(referentMap)` after the given entities. */
  function Tally(entities: seq<Entity>): seq<Referent>
    decreases |entities|
  {
    if entities == [] then []
    else Add(Tally(entities[..|entities| - 1]), entities[|entities| - 1])
  }

  /** The comparator `b.revenue - a.revenue` as a key. */
  function RevenueKey(r: Referent): seq<int> {
    [-r.revenue]
  }

  /** The ranked leaderboard. */
  function Leaderboard(entities: seq<Entity>): seq<Referent> {
    SortBy(Tally(entities), RevenueKey)
  }

  /** The `forEach` that fills `referentMap`, then the ranking. */
  method BuildLeaderboard(entities: seq<Entity>) returns (board: seq<Referent>)
    ensures board == Leaderboard(entities)
  {
    var rows: seq<Referent> := [];
    for i := 0 to |entities|
      invariant rows == Tally(entities[..i])
    {
      var e := entities[i];
      assert entities[..i + 1][..i] == entities[..i];
      var ref := Or(Get(e, ReferentField), Str(Unassigned));
      if !StrictEq(ref, Str(Unassigned)) {
        var j := IndexOf(rows, ToStr(ref));
        if j == |rows| {
          rows := rows + [Referent(ref, 0, 0, 0, 0)];
        }
        rows := rows[j := Bump(rows[j], e)];
      }
    }
    assert entities[..|entities|] == entities;
    board := SortBy(rows, RevenueKey);
  }

  /** An entity is left out exactly when it has no referent or the referent is
      the literal "Non attribué". */
  lemma CountedMeans(e: Entity)
    ensures Counted(e) <==> Truthy(Get(e, ReferentField)) && Get(e, ReferentField) != Str(Unassigned)
  {
  }

  /** The number of entities that pass a test. */
  function CountWhere(s: seq<Entity>, p: Entity -> bool): nat
    decreases |s|
  {
    if s == [] then 0 else CountWhere(s[..|s| - 1], p) + (if p(s[|s| - 1]) then 1 else 0)
  }

  /** The total amount of the entities that pass a test. */
  function SumWhere(s: seq<Entity>, p: Entity -> bool): int
    decreases |s|
  {
    if s == [] then 0 else SumWhere(s[..|s| - 1], p) + (if p(s[|s| - 1]) then Amount(s[|s| - 1]) else 0)
  }

  lemma WhereSnoc(s: seq<Entity>, e: Entity, p: Entity -> bool)
    ensures CountWhere(s + [e], p) == CountWhere(s, p) + (if p(e) then 1 else 0)
    ensures SumWhere(s + [e], p) == SumWhere(s, p) + (if p(e) then Amount(e) else 0)
  {
    assert (s + [e])[..|s|] == s;
  }

  /** A test nobody passes counts nothing. */
  lemma {:induction false} CountWhereNone(s: seq<Entity>, p: Entity -> bool)
    requires forall j :: 0 <= j < |s| ==> !p(s[j])
    ensures CountWhere(s, p) == 0
    decreases |s|
  {
    if s != [] {
      CountWhereNone(s[..|s| - 1], p);
    }
  }

  /** A positive count has a witness. */
  lemma {:induction false} CountWhereWitness(s: seq<Entity>, p: Entity -> bool)
    requires CountWhere(s, p) > 0
    ensures exists j :: 0 <= j < |s| && p(s[j])
    decreases |s|
  {
    var init := s[..|s| - 1];
    if !p(s[|s| - 1]) {
      CountWhereWitness(init, p);
      var j :| 0 <= j < |init| && p(init[j]);
      assert s[j] == init[j];
    }
  }

  /** A stricter test counts no more. */
  lemma {:induction false} CountWhereMonotone(s: seq<Entity>, p: Entity -> bool, q: Entity -> bool)
    requires forall j :: 0 <= j < |s| && q(s[j]) ==> p(s[j])
    ensures CountWhere(s, q) <= CountWhere(s, p)
    decreases |s|
  {
    if s != [] {
      CountWhereMonotone(s[..|s| - 1], p, q);
    }
  }

  /** A row holds exactly what its entities add up to, and its signed and
      refused deals are among its entities. */
  predicate Describes(r: Referent, entities: seq<Entity>) {
    r.totalCount == CountWhere(entities, BelongsTo(Key(r))) &&
    r.revenue == SumWhere(entities, BelongsTo(Key(r))) &&
    r.signedCount == CountWhere(entities, SignedIn(Key(r))) &&
    r.refusedCount == CountWhere(entities, RefusedIn(Key(r))) &&
    Sane(r)
  }

  /** A row has at least one entity, and its signed and refused deals are
      among them. */
  predicate Sane(r: Referent) {
    r.signedCount + r.refusedCount <= r.totalCount && r.totalCount >= 1
  }

  /** A row another entity does not belong to still describes the longer list. */
  lemma DescribesUntouched(r: Referent, s: seq<Entity>, e: Entity)
    requires Describes(r, s) && !BelongsTo(Key(r))(e)
    ensures Describes(r, s + [e])
  {
    WhereSnoc(s, e, BelongsTo(Key(r)));
    WhereSnoc(s, e, SignedIn(Key(r)));
    WhereSnoc(s, e, RefusedIn(Key(r)));
  }

  /** Bumping the row the entity belongs to describes the longer list. */
  lemma DescribesBumped(r: Referent, s: seq<Entity>, e: Entity)
    requires BelongsTo(Key(r))(e)
    requires Describes(r, s) || (r.revenue == 0 && r.signedCount == 0 && r.refusedCount == 0 && r.totalCount == 0 &&
                                 CountWhere(s, BelongsTo(Key(r))) == 0)
    ensures Describes(Bump(r, e), s + [e])
  {
    var k := Key(r);
    WhereSnoc(s, e, BelongsTo(k));
    WhereSnoc(s, e, SignedIn(k));
    WhereSnoc(s, e, RefusedIn(k));
    if !Describes(r, s) {
      CountWhereMonotone(s, BelongsTo(k), SignedIn(k));
      CountWhereMonotone(s, BelongsTo(k), RefusedIn(k));
      SumWhereNone(s, BelongsTo(k));
    }
  }

  /** Nothing to count, nothing to add up. */
  lemma {:induction false} SumWhereNone(s: seq<Entity>, p: Entity -> bool)
    requires CountWhere(s, p) == 0
    ensures SumWhere(s, p) == 0
    decreases |s|
  {
    if s != [] {
      SumWhereNone(s[..|s| - 1], p);
    }
  }

  /** A property name without a row has no entity yet. */
  lemma NoRowNoMember(rows: seq<Referent>, s: seq<Entity>, key: string)
    requires Covers(rows, s)
    requires forall i :: 0 <= i < |rows| ==> Key(rows[i]) != key
    ensures CountWhere(s, BelongsTo(key)) == 0
  {
    forall j | 0 <= j < |s| ensures !BelongsTo(key)(s[j]) {
      if Counted(s[j]) {
        var i :| 0 <= i < |rows| && Key(rows[i]) == KeyOf(s[j]);
        assert Key(rows[i]) != key;
      }
    }
    CountWhereNone(s, BelongsTo(key));
  }

  /** Every row describes its entities. */
  predicate AllDescribe(rows: seq<Referent>, s: seq<Entity>) {
    forall i :: 0 <= i < |rows| ==> Describes(rows[i], s)
  }

  /** Every counted entity has a row. */
  predicate Covers(rows: seq<Referent>, s: seq<Entity>) {
    forall j :: 0 <= j < |s| && Counted(s[j]) ==> exists i :: 0 <= i < |rows| && Key(rows[i]) == KeyOf(s[j])
  }

  /** Distinct property names, and a row for every counted entity. */
  predicate Shape(rows: seq<Referent>, s: seq<Entity>) {
    DistinctBy(rows, Key) && Covers(rows, s)
  }

  /** The rows accumulated over a list: one per referent property name,
      each describing its entities, and one for every counted entity. */
  predicate TallyOf(rows: seq<Referent>, s: seq<Entity>) {
    Shape(rows, s) && AllDescribe(rows, s)
  }

  lemma DescribeUncounted(rows: seq<Referent>, s: seq<Entity>, e: Entity)
    requires AllDescribe(rows, s) && !Counted(e)
    ensures AllDescribe(rows, s + [e])
  {
    forall i | 0 <= i < |rows| ensures Describes(rows[i], s + [e]) {
      DescribesUntouched(rows[i], s, e);
    }
  }

  lemma CoverUncounted(rows: seq<Referent>, s: seq<Entity>, e: Entity)
    requires Covers(rows, s) && !Counted(e)
    ensures Covers(rows, s + [e])
  {
    forall j | 0 <= j < |s + [e]| && Counted((s + [e])[j])
      ensures exists i :: 0 <= i < |rows| && Key(rows[i]) == KeyOf((s + [e])[j])
    {
      assert (s + [e])[j] == s[j];
    }
  }

  lemma DescribeExisting(rows: seq<Referent>, s: seq<Entity>, e: Entity, j: nat)
    requires DistinctBy(rows, Key) && AllDescribe(rows, s)
    requires j < |rows| && Counted(e) && Key(rows[j]) == KeyOf(e)
    ensures AllDescribe(rows[j := Bump(rows[j], e)], s + [e])
  {
    var next := rows[j := Bump(rows[j], e)];
    forall i | 0 <= i < |next| ensures Describes(next[i], s + [e]) {
      if i == j {
        DescribesBumped(rows[j], s, e);
      } else {
        assert Key(rows[i]) != Key(rows[j]);
        DescribesUntouched(rows[i], s, e);
      }
    }
  }

  lemma CoverExisting(rows: seq<Referent>, s: seq<Entity>, e: Entity, j: nat)
    requires Covers(rows, s)
    requires j < |rows| && Key(rows[j]) == KeyOf(e)
    ensures Covers(rows[j := Bump(rows[j], e)], s + [e])
  {
    var next := rows[j := Bump(rows[j], e)];
    forall k | 0 <= k < |s + [e]| && Counted((s + [e])[k])
      ensures exists i :: 0 <= i < |next| && Key(next[i]) == KeyOf((s + [e])[k])
    {
      if k < |s| {
        assert (s + [e])[k] == s[k];
        var i :| 0 <= i < |rows| && Key(rows[i]) == KeyOf(s[k]);
        assert Key(next[i]) == Key(rows[i]);
      } else {
        assert Key(next[j]) == KeyOf(e);
      }
    }
  }

  lemma DescribeFresh(rows: seq<Referent>, s: seq<Entity>, e: Entity)
    requires AllDescribe(rows, s) && Counted(e)
    requires forall i :: 0 <= i < |rows| ==> Key(rows[i]) != KeyOf(e)
    requires CountWhere(s, BelongsTo(KeyOf(e))) == 0
    ensures AllDescribe(rows + [Bump(Referent(RefOf(e), 0, 0, 0, 0), e)], s + [e])
  {
    var blank := Referent(RefOf(e), 0, 0, 0, 0);
    var next := rows + [Bump(blank, e)];
    forall i | 0 <= i < |next| ensures Describes(next[i], s + [e]) {
      if i == |rows| {
        DescribesBumped(blank, s, e);
      } else {
        assert next[i] == rows[i];
        DescribesUntouched(rows[i], s, e);
      }
    }
  }

  lemma CoverFresh(rows: seq<Referent>, s: seq<Entity>, e: Entity)
    requires Covers(rows, s)
    ensures Covers(rows + [Bump(Referent(RefOf(e), 0, 0, 0, 0), e)], s + [e])
  {
    var next := rows + [Bump(Referent(RefOf(e), 0, 0, 0, 0), e)];
    forall k | 0 <= k < |s + [e]| && Counted((s + [e])[k])
      ensures exists i :: 0 <= i < |next| && Key(next[i]) == KeyOf((s + [e])[k])
    {
      if k < |s| {
        assert (s + [e])[k] == s[k];
        var i :| 0 <= i < |rows| && Key(rows[i]) == KeyOf(s[k]);
        assert next[i] == rows[i];
      } else {
        assert Key(next[|rows|]) == KeyOf(e);
      }
    }
  }

  /** The rows after a counted entity keep their property names distinct. */
  lemma DistinctAfterAdd(rows: seq<Referent>, e: Entity)
    requires DistinctBy(rows, Key) && Counted(e)
    ensures DistinctBy(Add(rows, e), Key)
  {
    var j := IndexOf(rows, KeyOf(e));
    if j < |rows| {
      var next := rows[j := Bump(rows[j], e)];
      assert forall i :: 0 <= i < |next| ==> Key(next[i]) == Key(rows[i]);
    } else {
      var next := rows + [Bump(Referent(RefOf(e), 0, 0, 0, 0), e)];
      assert forall i :: 0 <= i < |rows| ==> next[i] == rows[i];
    }
  }

  /** The accumulated rows have distinct property names and cover every
      counted entity. */
  lemma {:induction false} TallyShape(entities: seq<Entity>)
    ensures Shape(Tally(entities), entities)
    decreases |entities|
  {
    if entities != [] {
      var init, last := entities[..|entities| - 1], entities[|entities| - 1];
      assert entities == init + [last];
      TallyShape(init);
      var rows := Tally(init);
      if !Counted(last) {
        CoverUncounted(rows, init, last);
      } else {
        DistinctAfterAdd(rows, last);
        var j := IndexOf(rows, KeyOf(last));
        if j < |rows| {
          CoverExisting(rows, init, last, j);
        } else {
          CoverFresh(rows, init, last);
        }
      }
    }
  }

  /** Every accumulated row describes its entities. */
  lemma {:induction false} TallyRowsDescribe(entities: seq<Entity>)
    ensures AllDescribe(Tally(entities), entities)
    decreases |entities|
  {
    if entities != [] {
      var init, last := entities[..|entities| - 1], entities[|entities| - 1];
      assert entities == init + [last];
      TallyRowsDescribe(init);
      TallyShape(init);
      var rows := Tally(init);
      if !Counted(last) {
        DescribeUncounted(rows, init, last);
      } else {
        var j := IndexOf(rows, KeyOf(last));
        if j < |rows| {
          DescribeExisting(rows, init, last, j);
        } else {
          NoRowNoMember(rows, init, KeyOf(last));
          DescribeFresh(rows, init, last);
        }
      }
    }
  }

  /** The accumulated rows describe the list they were built from. */
  lemma TallyDescribes(entities: seq<Entity>)
    ensures TallyOf(Tally(entities), entities)
  {
    TallyShape(entities);
    TallyRowsDescribe(entities);
  }

  function TotalOf(r: Referent): int {
    r.totalCount
  }

  function RevenueOf(r: Referent): int {
    r.revenue
  }

  function SignedOf(r: Referent): int {
    r.signedCount
  }

  function SignedAndCounted(e: Entity): bool {
    IsSigned(e) && Counted(e)
  }

  /** The rows' columns add up to the counted entities' figures. */
  lemma {:induction false} TallySums(entities: seq<Entity>)
    ensures SumBy(Tally(entities), TotalOf) == CountWhere(entities, Counted)
    ensures SumBy(Tally(entities), RevenueOf) == SumWhere(entities, Counted)
    ensures SumBy(Tally(entities), SignedOf) == CountWhere(entities, SignedAndCounted)
    decreases |entities|
  {
    if entities != [] {
      var init, last := entities[..|entities| - 1], entities[|entities| - 1];
      assert entities == init + [last];
      TallySums(init);
      WhereSnoc(init, last, Counted);
      WhereSnoc(init, last, SignedAndCounted);
      var rows := Tally(init);
      if Counted(last) {
        var j := IndexOf(rows, KeyOf(last));
        if j < |rows| {
          SumByUpdate(rows, j, Bump(rows[j], last), TotalOf);
          SumByUpdate(rows, j, Bump(rows[j], last), RevenueOf);
          SumByUpdate(rows, j, Bump(rows[j], last), SignedOf);
        } else {
          var row := Bump(Referent(RefOf(last), 0, 0, 0, 0), last);
          SumBySnoc(rows, row, TotalOf);
          SumBySnoc(rows, row, RevenueOf);
          SumBySnoc(rows, row, SignedOf);
        }
      }
    }
  }

  /** The counted and the uncounted entities make up the whole list's
      revenue and signed deals. */
  lemma {:induction false} WholeList(s: seq<Entity>)
    ensures SumWhere(s, Counted) + SumWhere(s, Not(Counted)) == TotalRevenue(s)
    ensures CountWhere(s, SignedAndCounted) + CountWhere(s, Both(IsSigned, Not(Counted))) == SignedDeals(s)
    decreases |s|
  {
    if s != [] {
      var init, last := s[..|s| - 1], s[|s| - 1];
      assert s == init + [last];
      WholeList(init);
      WhereSnoc(init, last, Counted);
      WhereSnoc(init, last, Not(Counted));
      WhereSnoc(init, last, SignedAndCounted);
      WhereSnoc(init, last, Both(IsSigned, Not(Counted)));
      SumBySnoc(init, last, Amount);
      FilterSnoc(init, last, IsSigned);
    }
  }

  lemma DescendingKey(a: Referent, b: Referent)
    requires LexLeq(RevenueKey(a), RevenueKey(b))
    ensures a.revenue >= b.revenue
  {
  }

  /** Every row of the leaderboard describes its referent's entities, and no
      referent has two rows. */
  lemma LeaderboardRows(entities: seq<Entity>)
    ensures forall r :: r in Leaderboard(entities) ==> Describes(r, entities)
    ensures DistinctBy(Leaderboard(entities), Key)
  {
    TallyDescribes(entities);
    var rows := Tally(entities);
    forall r | r in Leaderboard(entities) ensures Describes(r, entities) {
      assert r in multiset(Leaderboard(entities));
      assert r in rows;
    }
    SortByDistinct(rows, RevenueKey, Key);
  }

  /** A referent is on the leaderboard exactly when some counted entity has it. */
  lemma LeaderboardReferents(entities: seq<Entity>, key: string)
    ensures (exists i :: 0 <= i < |Leaderboard(entities)| && Key(Leaderboard(entities)[i]) == key) <==>
            (exists j :: 0 <= j < |entities| && Counted(entities[j]) && KeyOf(entities[j]) == key)
  {
    var board := Leaderboard(entities);
    if exists i :: 0 <= i < |board| && Key(board[i]) == key {
      var i :| 0 <= i < |board| && Key(board[i]) == key;
      RowHasEntity(entities, board[i]);
    }
    if exists j :: 0 <= j < |entities| && Counted(entities[j]) && KeyOf(entities[j]) == key {
      var j :| 0 <= j < |entities| && Counted(entities[j]) && KeyOf(entities[j]) == key;
      EntityHasRow(entities, j);
    }
  }

  lemma RowHasEntity(entities: seq<Entity>, r: Referent)
    requires r in Leaderboard(entities)
    ensures exists j :: 0 <= j < |entities| && Counted(entities[j]) && KeyOf(entities[j]) == Key(r)
  {
    LeaderboardRows(entities);
    assert Describes(r, entities);
    CountWhereWitness(entities, BelongsTo(Key(r)));
  }

  lemma EntityHasRow(entities: seq<Entity>, j: nat)
    requires j < |entities| && Counted(entities[j])
    ensures exists i :: 0 <= i < |Leaderboard(entities)| && Key(Leaderboard(entities)[i]) == KeyOf(entities[j])
  {
    TallyShape(entities);
    var rows, board := Tally(entities), Leaderboard(entities);
    var i :| 0 <= i < |rows| && Key(rows[i]) == KeyOf(entities[j]);
    assert rows[i] in multiset(board);
    var b :| 0 <= b < |board| && board[b] == rows[i];
  }

  /** The rows are ranked by revenue, highest first. */
  lemma LeaderboardRanked(entities: seq<Entity>)
    ensures forall i, j :: 0 <= i < j < |Leaderboard(entities)| ==>
      Leaderboard(entities)[i].revenue >= Leaderboard(entities)[j].revenue
  {
    SortBySorted(Tally(entities), RevenueKey);
    forall i, j | 0 <= i < j < |Leaderboard(entities)|
      ensures Leaderboard(entities)[i].revenue >= Leaderboard(entities)[j].revenue
    {
      DescendingKey(Leaderboard(entities)[i], Leaderboard(entities)[j]);
    }
  }

  /** The row counts add up to the counted entities; the revenues, with the
      uncounted entities' amounts, to the total revenue; the signed counts,
      with the uncounted signed deals, to the signed deals. */
  lemma LeaderboardTotals(entities: seq<Entity>)
    ensures SumBy(Leaderboard(entities), TotalOf) == CountWhere(entities, Counted)
    ensures SumBy(Leaderboard(entities), RevenueOf) + SumWhere(entities, Not(Counted)) == TotalRevenue(entities)
    ensures SumBy(Leaderboard(entities), SignedOf) + CountWhere(entities, Both(IsSigned, Not(Counted))) ==
            SignedDeals(entities)
  {
    TallySums(entities);
    SortBySum(Tally(entities), RevenueKey, TotalOf);
    SortBySum(Tally(entities), RevenueKey, RevenueOf);
    SortBySum(Tally(entities), RevenueKey, SignedOf);
    WholeList(entities);
  }

  /** `Math.min(100, (refData.revenue / goal) * 100)` */
  function Progress(r: Referent): (p: real)
    ensures p <= 100.0
    ensures p == 100.0 <==> r.revenue >= GoalRevenue
    ensures r.revenue < GoalRevenue ==> p * (GoalRevenue as real) == (r.revenue as real) * 100.0
  {
    var raw := (r.revenue as real / GoalRevenue as real) * 100.0;
    if raw < 100.0 then raw else 100.0
  }

  /** `(refData.refusedCount / (refData.totalCount || 1)) * 100` */
  function RefusedShare(r: Referent): (p: real)
    ensures p >= 0.0
    ensures r.totalCount == 0 ==> p == (r.refusedCount as real) * 100.0
    ensures r.totalCount > 0 ==> p * (r.totalCount as real) == (r.refusedCount as real) * 100.0
    ensures r.refusedCount <= r.totalCount ==> p <= 100.0
  {
    var divisor := if r.totalCount == 0 then 1 else r.totalCount;
    var ratio := r.refusedCount as real / divisor as real;
    assert r.refusedCount <= r.totalCount ==> ratio <= 1.0;
    ratio * 100.0
  }

  /** On the leaderboard every row has at least one entity, so the share is
      a true percentage. */
  lemma LeaderboardShares(entities: seq<Entity>, r: Referent)
    requires r in Leaderboard(entities)
    ensures RefusedShare(r) * (r.totalCount as real) == (r.refusedCount as real) * 100.0
    ensures 0.0 <= RefusedShare(r) <= 100.0
  {
    LeaderboardSane(entities);
    SaneShare(r);
  }

  lemma LeaderboardSane(entities: seq<Entity>)
    ensures forall r :: r in Leaderboard(entities) ==> Sane(r)
  {
    LeaderboardRows(entities);
  }

  lemma SaneShare(r: Referent)
    requires Sane(r)
    ensures RefusedShare(r) * (r.totalCount as real) == (r.refusedCount as real) * 100.0
    ensures 0.0 <= RefusedShare(r) <= 100.0
  {
  }
}
