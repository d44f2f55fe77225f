/** `abbreviateState`: rewrites the first Brazilian state name in an
    autocomplete description to its two-letter abbreviation, unless the
    description already carries an abbreviation. */
module States {
  import opened Wrappers
  import opened Strings

  datatype State = State(name: string, abbreviation: string)

  /** `stateAbbreviations`, in the order the source lists it. */
  const StateTable: seq<State> := [
    State("Acre", "AC"),
    State("Alagoas", "AL"),
    State("Amapá", "AP"),
    State("Amazonas", "AM"),
    State("Bahia", "BA"),
    State("Ceará", "CE"),
    State("Distrito Federal", "DF"),
    State("Espírito Santo", "ES"),
    State("Goiás", "GO"),
    State("Maranhão", "MA"),
    State("Mato Grosso", "MT"),
    State("Mato Grosso do Sul", "MS"),
    State("Minas Gerais", "MG"),
    State("Pará", "PA"),
    State("Paraíba", "PB"),
    State("Paraná", "PR"),
    State("Pernambuco", "PE"),
    State("Piauí", "PI"),
    State("Rio de Janeiro", "RJ"),
    State("Rio Grande do Norte", "RN"),
    State("Rio Grande do Sul", "RS"),
    State("Rondônia", "RO"),
    State("Roraima", "RR"),
    State("Santa Catarina", "SC"),
    State("São Paulo", "SP"),
    State("Sergipe", "SE"),
    State("Tocantins", "TO")
  ]

  /** Some abbreviation of the table occurs in `d`. */
  predicate HasAbbreviation(d: string) {
    exists i | 0 <= i < |StateTable| :: Contains(d, StateTable[i].abbreviation)
  }

  /** Some state name of the table occurs in `d`. */
  predicate HasStateName(d: string) {
    exists i | 0 <= i < |StateTable| :: Contains(d, StateTable[i].name)
  }

  /** `order` lists the entries of `table`, each exactly once: it is as long
      as `table`, every entry of `table` occurs in it, and every element of it
      is an entry of `table`. Since the entries of `table` are distinct, this
      is exactly a permutation. */
  predicate IsPermutationOf(order: seq<State>, table: seq<State>) {
    && |order| == |table|
    && (forall i :: 0 <= i < |table| ==> table[i] in order)
    && (forall i :: 0 <= i < |order| ==> order[i] in table)
  }

  /** The table's entries are pairwise distinct, even in their abbreviations,
      so an order of the table's length that holds every entry holds each one
      exactly once. */
  lemma StateTableDistinct()
    ensures forall i, j :: 0 <= i < j < |StateTable| ==> StateTable[i].abbreviation != StateTable[j].abbreviation
  {
  }

  /** An order in which ranging over the Go map may visit the table: every
      entry exactly once, in any order. */
  predicate IsIterationOrder(order: seq<State>) {
    IsPermutationOf(order, StateTable)
  }

  /** The first state in `order` whose name occurs in `d`. */
  function FirstContained(d: string, order: seq<State>): (r: Option<State>)
    ensures r.None? <==> forall i :: 0 <= i < |order| ==> !Contains(d, order[i].name)
    ensures r.Some? ==> exists i :: 0 <= i < |order| && order[i] == r.value && Contains(d, r.value.name) &&
                                    forall j :: 0 <= j < i ==> !Contains(d, order[j].name)
  {
    if |order| == 0 then None
    else if Contains(d, order[0].name) then Some(order[0])
    else
      var r := FirstContained(d, order[1..]);
      assert forall i :: 0 < i < |order| ==> order[i] == order[1..][i - 1];
      r
  }

  /** `abbreviateState` as written, with the map's iteration order made
      explicit: a description holding an abbreviation is left alone; otherwise
      the first occurrence of the first state name met in `order` is replaced. */
  function AbbreviateState(d: string, order: seq<State>): (r: string)
    requires IsIterationOrder(order)
    ensures HasAbbreviation(d) ==> r == d
    ensures !HasStateName(d) ==> r == d
    ensures !HasAbbreviation(d) && HasStateName(d) ==>
      exists i :: 0 <= i < |StateTable| && Contains(d, StateTable[i].name) &&
                  r == ReplaceFirst(d, StateTable[i].name, StateTable[i].abbreviation)
  {
    if HasAbbreviation(d) then d
    else
      var first := FirstContained(d, order);
      FirstContainedIsFromTable(d, order, StateTable);
      if first.None? then d
      else ReplaceFirst(d, first.value.name, first.value.abbreviation)
  }

  /** Whatever order a permutation of `table` visits it in, the first
      contained state found is an entry of `table`, and none is found only
      when no name of `table` occurs. */
  lemma FirstContainedIsFromTable(d: string, order: seq<State>, table: seq<State>)
    requires IsPermutationOf(order, table)
    ensures FirstContained(d, order).None? ==> forall i :: 0 <= i < |table| ==> !Contains(d, table[i].name)
    ensures FirstContained(d, order).Some? ==>
      exists i :: 0 <= i < |table| && table[i] == FirstContained(d, order).value && Contains(d, table[i].name)
  {
    var first := FirstContained(d, order);
    if first.None? {
      forall i | 0 <= i < |table| ensures !Contains(d, table[i].name) {
        assert table[i] in order;
      }
    } else {
      var k :| 0 <= k < |order| && order[k] == first.value;
      assert first.value in table;
    }
  }

  /** Among the first `n` states, the index of one with the longest name
      among those that `occurs` accepts, the earliest one among names of
      equal length; -1 when `occurs` accepts none of them. */
  function LongestAmong(states: seq<State>, n: nat, occurs: State -> bool): (k: int)
    requires n <= |states|
    ensures -1 <= k < n
    ensures k == -1 <==> forall i :: 0 <= i < n ==> !occurs(states[i])
    ensures k >= 0 ==> occurs(states[k])
    ensures k >= 0 ==> forall i :: 0 <= i < n && occurs(states[i]) ==> |states[i].name| <= |states[k].name|
    ensures k >= 0 ==> forall i :: 0 <= i < k && occurs(states[i]) ==> |states[i].name| < |states[k].name|
  {
    if n == 0 then -1
    else
      var rest := LongestAmong(states, n - 1, occurs);
      if occurs(states[n - 1]) && (rest == -1 || |states[rest].name| < |states[n - 1].name|) then
        n - 1
      else
        rest
  }

  /** The state with the longest name that occurs in `d`; the earlier one in
      the table among names of equal length. */
  function LongestContained(d: string, states: seq<State>): (r: Option<State>)
    ensures r.None? <==> forall i :: 0 <= i < |states| ==> !Contains(d, states[i].name)
    ensures r.Some? ==> r.value in states && Contains(d, r.value.name)
    ensures r.Some? ==> forall i :: 0 <= i < |states| && Contains(d, states[i].name) ==>
                                    |states[i].name| <= |r.value.name|
    ensures r.Some? ==> exists i :: 0 <= i < |states| && states[i] == r.value &&
                                    forall j :: 0 <= j < i && Contains(d, states[j].name) ==>
                                                  |states[j].name| < |r.value.name|
  {
    var occurs := (st: State) => Contains(d, st.name);
    var k := LongestAmong(states, |states|, occurs);
    assert forall i :: 0 <= i < |states| ==> occurs(states[i]) == Contains(d, states[i].name);
    if k == -1 then None else Some(states[k])
  }

  /** `abbreviateState` with the order dependence removed: of the state names
      occurring in `d`, the longest one is abbreviated, so a name that is part
      of a longer contained name ("Mato Grosso" in "Mato Grosso do Sul") is
      never picked. */
  function AbbreviateStateLongest(d: string): (r: string)
    ensures HasAbbreviation(d) ==> r == d
    ensures !HasStateName(d) ==> r == d
    ensures !HasAbbreviation(d) && HasStateName(d) ==>
      exists i :: 0 <= i < |StateTable| && Contains(d, StateTable[i].name) &&
                  r == ReplaceFirst(d, StateTable[i].name, StateTable[i].abbreviation) &&
                  forall j :: 0 <= j < |StateTable| && Contains(d, StateTable[j].name) ==>
                                |StateTable[j].name| <= |StateTable[i].name|
  {
    if HasAbbreviation(d) then d
    else
      match LongestContained(d, StateTable)
      case None => d
      case Some(st) =>
        LongestIsListed(d, StateTable);
        ReplaceFirst(d, st.name, st.abbreviation)
  }

  /** The longest contained state sits at an index of `table` and is at least
      as long as every other contained name there. */
  lemma LongestIsListed(d: string, table: seq<State>)
    requires LongestContained(d, table).Some?
    ensures var st := LongestContained(d, table).value;
      exists i :: 0 <= i < |table| && Contains(d, table[i].name) &&
                  ReplaceFirst(d, st.name, st.abbreviation) ==
                    ReplaceFirst(d, table[i].name, table[i].abbreviation) &&
                  forall j :: 0 <= j < |table| && Contains(d, table[j].name) ==>
                                |table[j].name| <= |table[i].name|
  {
    var st := LongestContained(d, table).value;
    var i :| 0 <= i < |table| && table[i] == st &&
             forall j :: 0 <= j < i && Contains(d, table[j].name) ==> |table[j].name| < |st.name|;
  }

  /** A rewritten description holds the abbreviation it received. */
  lemma ReplacementHoldsAbbreviation(d: string, i: int)
    requires 0 <= i < |StateTable| && Contains(d, StateTable[i].name)
    ensures Contains(ReplaceFirst(d, StateTable[i].name, StateTable[i].abbreviation), StateTable[i].abbreviation)
  {
    var st := StateTable[i];
    var k :| OccursAt(d, st.name, k) && ReplaceFirst(d, st.name, st.abbreviation) == d[..k] + st.abbreviation + d[k + |st.name|..];
    assert OccursAt(ReplaceFirst(d, st.name, st.abbreviation), st.abbreviation, k);
  }

  /** The source's rewrite is idempotent too, whichever orders the two
      passes visit the map in. */
  lemma AbbreviateStateIdempotent(d: string, order1: seq<State>, order2: seq<State>)
    requires IsIterationOrder(order1) && IsIterationOrder(order2)
    ensures AbbreviateState(AbbreviateState(d, order1), order2) == AbbreviateState(d, order1)
  {
    if !HasAbbreviation(d) && HasStateName(d) {
      var i :| 0 <= i < |StateTable| && Contains(d, StateTable[i].name) &&
               AbbreviateState(d, order1) == ReplaceFirst(d, StateTable[i].name, StateTable[i].abbreviation);
      ReplacementHoldsAbbreviation(d, i);
      assert HasAbbreviation(AbbreviateState(d, order1));
    }
  }

  /** The corrected rewrite is idempotent: its output already holds an
      abbreviation, or holds no state name at all. */
  lemma AbbreviateStateLongestIdempotent(d: string)
    ensures AbbreviateStateLongest(AbbreviateStateLongest(d)) == AbbreviateStateLongest(d)
  {
    if !HasAbbreviation(d) && HasStateName(d) {
      var i :| 0 <= i < |StateTable| && Contains(d, StateTable[i].name) &&
               AbbreviateStateLongest(d) == ReplaceFirst(d, StateTable[i].name, StateTable[i].abbreviation);
      ReplacementHoldsAbbreviation(d, i);
      assert HasAbbreviation(AbbreviateStateLongest(d));
    }
  }

  /** Moving one entry to the front gives a permutation. */
  lemma MoveToFront(s: seq<State>, i: int)
    requires 0 <= i < |s|
    ensures IsPermutationOf([s[i]] + s[..i] + s[i + 1..], s)
  {
    var t := [s[i]] + s[..i] + s[i + 1..];
    forall j | 0 <= j < |s| ensures s[j] in t {
      if j < i { assert t[j + 1] == s[j]; }
      else if j > i { assert t[j] == s[j]; }
      else { assert t[0] == s[j]; }
    }
    forall j | 0 <= j < |t| ensures t[j] in s {
      if j == 0 { assert t[j] == s[i]; }
      else if j <= i { assert t[j] == s[j - 1]; }
      else { assert t[j] == s[j]; }
    }
  }

  /** Any entry of `table` whose name occurs in `d` is the first one found by
      some order that visits `table`. */
  lemma SomeOrderFindsFirst(d: string, table: seq<State>, i: int)
    requires 0 <= i < |table| && Contains(d, table[i].name)
    ensures exists order :: IsPermutationOf(order, table) && FirstContained(d, order) == Some(table[i])
  {
    var order := [table[i]] + table[..i] + table[i + 1..];
    MoveToFront(table, i);
    assert FirstContained(d, order) == Some(table[i]);
  }

  /** Every state whose name occurs in a description without abbreviations
      can be the one `abbreviateState` rewrites: some iteration order picks it. */
  lemma AnyContainedStateCanBeChosen(d: string, i: int)
    requires 0 <= i < |StateTable|
    requires !HasAbbreviation(d) && Contains(d, StateTable[i].name)
    ensures exists order :: (IsIterationOrder(order) &&
      AbbreviateState(d, order) == ReplaceFirst(d, StateTable[i].name, StateTable[i].abbreviation))
  {
    SomeOrderFindsFirst(d, StateTable, i);
    var order :| IsPermutationOf(order, StateTable) && FirstContained(d, order) == Some(StateTable[i]);
    assert AbbreviateState(d, order) == ReplaceFirst(d, StateTable[i].name, StateTable[i].abbreviation);
  }

  /** The rewrite the corrected function picks is one the source may make. */
  lemma LongestIsAnAllowedChoice(d: string)
    ensures exists order :: IsIterationOrder(order) && AbbreviateState(d, order) == AbbreviateStateLongest(d)
  {
    var r := AbbreviateStateLongest(d);
    if HasAbbreviation(d) || !HasStateName(d) {
      assert IsIterationOrder(StateTable);
      assert AbbreviateState(d, StateTable) == r;
    } else {
      var i :| 0 <= i < |StateTable| && Contains(d, StateTable[i].name) &&
               r == ReplaceFirst(d, StateTable[i].name, StateTable[i].abbreviation);
      AnyContainedStateCanBeChosen(d, i);
    }
  }

  predicate IsCapital(c: char) {
    'A' <= c <= 'Z'
  }

  /** Every abbreviation is two capital letters. */
  lemma AbbreviationsAreCapitalPairs()
    ensures forall i :: 0 <= i < |StateTable| ==>
      |StateTable[i].abbreviation| == 2 &&
      IsCapital(StateTable[i].abbreviation[0]) && IsCapital(StateTable[i].abbreviation[1])
  {
  }

  /** A description with no two adjacent capital letters holds no abbreviation. */
  lemma NoCapitalPairNoAbbreviation(d: string)
    requires forall j :: 0 <= j < |d| - 1 ==> !(IsCapital(d[j]) && IsCapital(d[j + 1]))
    ensures !HasAbbreviation(d)
  {
    AbbreviationsAreCapitalPairs();
    forall i | 0 <= i < |StateTable|
      ensures !Contains(d, StateTable[i].abbreviation)
    {
    }
  }

  /** "Mato Grosso do Sul" holds no abbreviation. */
  lemma MatoGrossoDoSulHasNoAbbreviation()
    ensures !HasAbbreviation("Mato Grosso do Sul")
  {
    NoCapitalPairNoAbbreviation("Mato Grosso do Sul");
  }

  /** "Mato Grosso do Sul" holds two state names of the table. */
  lemma MatoGrossoDoSulNames()
    ensures StateTable[10] == State("Mato Grosso", "MT") && Contains("Mato Grosso do Sul", StateTable[10].name)
    ensures StateTable[11] == State("Mato Grosso do Sul", "MS") && Contains("Mato Grosso do Sul", StateTable[11].name)
  {
    assert OccursAt("Mato Grosso do Sul", "Mato Grosso", 0);
    assert OccursAt("Mato Grosso do Sul", "Mato Grosso do Sul", 0);
  }

  /** The two possible rewrites of "Mato Grosso do Sul". */
  lemma MatoGrossoDoSulRewrites()
    ensures ReplaceFirst("Mato Grosso do Sul", "Mato Grosso", "MT") == "MT do Sul"
    ensures ReplaceFirst("Mato Grosso do Sul", "Mato Grosso do Sul", "MS") == "MS"
  {
    var d := "Mato Grosso do Sul";
    assert OccursAt(d, "Mato Grosso", 0);
    assert IndexOf(d, "Mato Grosso") == 0;
    assert d[11..] == " do Sul";
    assert OccursAt(d, d, 0);
  }

  /** The description "Mato Grosso do Sul" is rewritten to "MT do Sul" or to
      "MS" depending on the map's iteration order, since "Mato Grosso" is part
      of "Mato Grosso do Sul". */
  lemma MatoGrossoDoSulDependsOnOrder()
    ensures exists order :: IsIterationOrder(order) && AbbreviateState("Mato Grosso do Sul", order) == "MT do Sul"
    ensures exists order :: IsIterationOrder(order) && AbbreviateState("Mato Grosso do Sul", order) == "MS"
  {
    MatoGrossoDoSulHasNoAbbreviation();
    MatoGrossoDoSulNames();
    MatoGrossoDoSulRewrites();
    AnyContainedStateCanBeChosen("Mato Grosso do Sul", 10);
    AnyContainedStateCanBeChosen("Mato Grosso do Sul", 11);
  }

  /** Only "Mato Grosso do Sul" has a name of 18 characters. */
  lemma OnlyOneNameOfEighteen(i: int)
    requires 0 <= i < |StateTable| && |StateTable[i].name| == 18
    ensures i == 11
  {
  }

  /** The corrected rewrite never abbreviates a state name that is part of a
      longer state name occurring in the description. */
  lemma LongestSkipsEmbeddedNames(d: string, i: int, j: int)
    requires 0 <= i < |StateTable| && 0 <= j < |StateTable|
    requires |StateTable[i].name| < |StateTable[j].name| && Contains(d, StateTable[j].name)
    requires !HasAbbreviation(d)
    ensures exists k :: 0 <= k < |StateTable| && |StateTable[k].name| > |StateTable[i].name| &&
                        AbbreviateStateLongest(d) == ReplaceFirst(d, StateTable[k].name, StateTable[k].abbreviation)
  {
  }

  /** Of the names the table holds, "Mato Grosso do Sul" is the longest state
      name occurring in "Mato Grosso do Sul". */
  lemma MatoGrossoDoSulLongest()
    ensures LongestContained("Mato Grosso do Sul", StateTable) == Some(StateTable[11])
  {
    var d := "Mato Grosso do Sul";
    MatoGrossoDoSulNames();
    var r := LongestContained(d, StateTable);
    assert 18 <= |r.value.name| <= 18 by {
      assert Contains(d, StateTable[11].name);
      ContainedIsNoLonger(d, r.value.name);
    }
    var i :| 0 <= i < |StateTable| && StateTable[i] == r.value;
    OnlyOneNameOfEighteen(i);
  }

  /** Without an abbreviation in `d`, the corrected rewrite replaces the
      longest contained name. */
  lemma LongestRewrites(d: string, st: State)
    requires !HasAbbreviation(d) && LongestContained(d, StateTable) == Some(st)
    ensures AbbreviateStateLongest(d) == ReplaceFirst(d, st.name, st.abbreviation)
  {
  }

  /** The corrected rewrite abbreviates "Mato Grosso do Sul" to "MS". */
  lemma MatoGrossoDoSulCorrected()
    ensures AbbreviateStateLongest("Mato Grosso do Sul") == "MS"
  {
    MatoGrossoDoSulHasNoAbbreviation();
    MatoGrossoDoSulLongest();
    MatoGrossoDoSulNames();
    LongestRewrites("Mato Grosso do Sul", State("Mato Grosso do Sul", "MS"));
    MatoGrossoDoSulRewrites();
  }
}
