/** The rule registry of backend/src/config/reconciliationRules.ts: a constant table, its enabled rules in
    priority order, and lookup by name. */
module Rules {
  import opened Wrappers
  import opened Sorting

  /** `matchCriteria`: the record fields a rule compares and an optional amount tolerance. */
  datatype MatchCriteria = MatchCriteria(fields: seq<string>, amountVariance: Option<real>)

  datatype Rule = Rule(name: string, priority: int, enabled: bool, matchCriteria: MatchCriteria)

  const ExactMatch := "EXACT_MATCH"
  const PartialMatch := "PARTIAL_MATCH"
  const DuplicateDetection := "DUPLICATE_DETECTION"

  /** The shipped `reconciliationRules` table. */
  const Table: seq<Rule> := [
    Rule(ExactMatch, 1, true, MatchCriteria(["transactionId", "amount"], None)),
    Rule(PartialMatch, 2, true, MatchCriteria(["referenceNumber"], Some(0.02))),
    Rule(DuplicateDetection, 3, true, MatchCriteria(["transactionId"], None))
  ]

  function Priority(r: Rule): int { r.priority }

  /** `table.filter(rule => rule.enabled)`, in table order. */
  function EnabledOf(table: seq<Rule>): (r: seq<Rule>)
    ensures forall x :: x in r <==> x in table && x.enabled
    ensures multiset(r) <= multiset(table)
  {
    if table == [] then []
    else
      assert table == [table[0]] + table[1..];
      (if table[0].enabled then [table[0]] else []) + EnabledOf(table[1..])
  }

  /** `getActiveRules` over any table: its enabled rules, sorted (stably) by ascending priority. */
  function ActiveRulesOf(table: seq<Rule>): (r: seq<Rule>)
    ensures forall x :: x in r <==> x in table && x.enabled
    ensures multiset(r) == multiset(EnabledOf(table))
    ensures forall i, j :: 0 <= i < j < |r| ==> r[i].priority <= r[j].priority
  {
    var r := SortBy(EnabledOf(table), Priority);
    assert forall x :: x in r <==> x in multiset(r);
    assert forall i, j :: 0 <= i < j < |r| ==> Priority(r[i]) <= Priority(r[j]);
    r
  }

  /** `getActiveRules()`: the shipped table's enabled rules in priority order. The table itself is a
      constant value, so computing this view cannot change it. */
  function ActiveRules(): seq<Rule> {
    ActiveRulesOf(Table)
  }

  /** `table.find(rule => rule.name === name && rule.enabled)`. */
  function RuleByNameOf(table: seq<Rule>, name: string): (r: Option<Rule>)
    ensures r.None? <==> forall x :: x in table ==> !(x.name == name && x.enabled)
    ensures r.Some? ==> exists i :: 0 <= i < |table| && table[i] == r.value && r.value.name == name && r.value.enabled
                          && forall j :: 0 <= j < i ==> !(table[j].name == name && table[j].enabled)
  {
    if table == [] then None
    else if table[0].name == name && table[0].enabled then Some(table[0])
    else
      var r := RuleByNameOf(table[1..], name);
      assert forall x :: x in table ==> x == table[0] || x in table[1..];
      assert r.Some? ==> exists i :: 1 <= i < |table| && table[i] == r.value
                          && forall j :: 0 <= j < i ==> !(table[j].name == name && table[j].enabled) by {
        if r.Some? {
          var i :| 0 <= i < |table[1..]| && table[1..][i] == r.value
                   && forall j :: 0 <= j < i ==> !(table[1..][j].name == name && table[1..][j].enabled);
          assert table[i + 1] == r.value;
          assert forall j :: 1 <= j < i + 1 ==> table[j] == table[1..][j - 1];
        }
      }
      r
  }

  /** `getRuleByName(name)` on the shipped table. */
  function RuleByName(name: string): Option<Rule> {
    RuleByNameOf(Table, name)
  }

  /** With the shipped table the active rules are EXACT_MATCH (1), PARTIAL_MATCH (2) and
      DUPLICATE_DETECTION (3), in that order. */
  lemma ShippedOrder()
    ensures ActiveRules() == Table
    ensures |ActiveRules()| == 3
    ensures ActiveRules()[0].name == ExactMatch && ActiveRules()[0].priority == 1
    ensures ActiveRules()[1].name == PartialMatch && ActiveRules()[1].priority == 2
    ensures ActiveRules()[2].name == DuplicateDetection && ActiveRules()[2].priority == 3
  {
    TableAllEnabled();
    TableSorted();
    SortedEnabledActive(Table);
  }

  /** A table that is all enabled and already in priority order is its own active view. */
  lemma SortedEnabledActive(t: seq<Rule>)
    requires EnabledOf(t) == t && SortedBy(t, Priority)
    ensures ActiveRulesOf(t) == t
  {
    SortBySorted(t, Priority);
  }

  lemma TableSorted()
    ensures SortedBy(Table, Priority)
  {
    var t := Table;
    assert Priority(t[0]) == 1 && Priority(t[1]) == 2 && Priority(t[2]) == 3;
  }

  lemma TableAllEnabled()
    ensures EnabledOf(Table) == Table
  {
    var t := Table;
    assert t[2..][1..] == [];
    assert EnabledOf(t[2..]) == [t[2]];
    assert t[1..][1..] == t[2..];
    assert EnabledOf(t[1..]) == [t[1]] + [t[2]];
    assert EnabledOf(t) == [t[0]] + EnabledOf(t[1..]);
    assert EnabledOf(t) == [t[0], t[1], t[2]];
  }

  /** Looking up a shipped rule by name finds it; any other name finds nothing. */
  lemma ShippedLookup(name: string)
    ensures name == ExactMatch ==> RuleByName(name) == Some(Table[0])
    ensures name == PartialMatch ==> RuleByName(name) == Some(Table[1])
    ensures name == DuplicateDetection ==> RuleByName(name) == Some(Table[2])
    ensures name !in {ExactMatch, PartialMatch, DuplicateDetection} ==> RuleByName(name) == None
  {
  }
}
