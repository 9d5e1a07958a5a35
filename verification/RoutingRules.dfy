/**
 Routing rules: the condition grammar, the facts loaded to evaluate it, and which rule wins.

 `String.prototype.toLowerCase` is a parameter (`lower`): every theorem holds for any lower-casing.
 */
module RoutingRules {
  import opened Common
  import HexColour

  type Id = nat

  datatype Mode = Any | All

  datatype Operator = Equals | NotEquals | Contains | IsSet | IsNotSet

  datatype Condition =
    | Keyword(mode: Mode, values: seq<string>)
    | Tag(mode: Mode, tagIds: seq<Id>)
    | BusinessHours(within: bool)
    | ContactAttribute(key: string, operator: Operator, value: Option<string>)

  /** `None` in any field means there is nothing to read. An empty map is a contact with nothing set. */
  datatype Facts = Facts(
    messageBody: Option<string>,
    tagIds: Option<set<Id>>,
    customFields: Option<map<string, Option<string>>>,
    withinBusinessHours: Option<bool>)

  type Lowering = string -> string

  // --- The grammar, evaluated -------------------------------------------------------------------

  predicate OccursAt(haystack: string, needle: string, i: int) {
    0 <= i <= |haystack| - |needle| && haystack[i..i + |needle|] == needle
  }

  predicate Includes(haystack: string, needle: string) {
    exists i | 0 <= i <= |haystack| :: OccursAt(haystack, needle, i)
  }

  predicate Combine<T>(mode: Mode, values: seq<T>, holds: T -> bool) {
    match mode
    case Any => exists i | 0 <= i < |values| :: holds(values[i])
    case All => forall i | 0 <= i < |values| :: holds(values[i])
  }

  predicate NeedleFound(lower: Lowering, body: string, value: string) {
    var needle := lower(HexColour.Trim(value));
    |needle| > 0 && Includes(lower(body), needle)
  }

  predicate KeywordMatches(lower: Lowering, mode: Mode, values: seq<string>, body: Option<string>) {
    body.Some? && Combine(mode, values, v => NeedleFound(lower, body.value, v))
  }

  predicate TagMatches(mode: Mode, wanted: seq<Id>, tagIds: Option<set<Id>>) {
    tagIds.Some? && Combine(mode, wanted, t => t in tagIds.value)
  }

  /** The field's value; a missing key and a stored null are the same absence. */
  function FieldValue(fields: map<string, Option<string>>, key: string): Option<string> {
    if key in fields then fields[key] else None
  }

  predicate AttributeMatches(lower: Lowering, key: string, operator: Operator, wanted: Option<string>,
                             fields: Option<map<string, Option<string>>>) {
    fields.Some? &&
    var value := FieldValue(fields.value, key);
    match operator
    case IsSet => value.Some?
    case IsNotSet => value.None?
    case Equals => value.Some? && value == wanted
    case NotEquals => value.Some? && value != wanted
    case Contains => value.Some? && wanted.Some? && Includes(lower(value.value), lower(wanted.value))
  }

  predicate ConditionMatches(lower: Lowering, c: Condition, facts: Facts) {
    match c
    case Keyword(mode, values) => KeywordMatches(lower, mode, values, facts.messageBody)
    case Tag(mode, tagIds) => TagMatches(mode, tagIds, facts.tagIds)
    case BusinessHours(within) => facts.withinBusinessHours == Some(within)
    case ContactAttribute(key, operator, value) => AttributeMatches(lower, key, operator, value, facts.customFields)
  }

  predicate RuleMatches(lower: Lowering, conditions: seq<Condition>, facts: Facts) {
    forall i | 0 <= i < |conditions| :: ConditionMatches(lower, conditions[i], facts)
  }

  /** The source a condition reads. */
  predicate HasData(c: Condition, facts: Facts) {
    match c
    case Keyword(_, _) => facts.messageBody.Some?
    case Tag(_, _) => facts.tagIds.Some?
    case BusinessHours(_) => facts.withinBusinessHours.Some?
    case ContactAttribute(_, _, _) => facts.customFields.Some?
  }

  /**
   A condition with no data to read is false, whichever way it asks; with data, a business-hours
   condition and its negation are opposites, and for any field, key and value exactly one of
   `is_not_set`, `equals v` and `not_equals v` holds.
   */
  lemma NoDataIsFalse(lower: Lowering, c: Condition, facts: Facts)
    ensures !HasData(c, facts) ==> !ConditionMatches(lower, c, facts)
    ensures c.BusinessHours? && HasData(c, facts) ==>
              ConditionMatches(lower, c, facts) != ConditionMatches(lower, BusinessHours(!c.within), facts)
    ensures c.ContactAttribute? && c.value.Some? && HasData(c, facts) ==>
              var unset := ConditionMatches(lower, ContactAttribute(c.key, IsNotSet, None), facts);
              var same := ConditionMatches(lower, ContactAttribute(c.key, Equals, c.value), facts);
              var other := ConditionMatches(lower, ContactAttribute(c.key, NotEquals, c.value), facts);
              (unset || same || other) && !(unset && same) && !(unset && other) && !(same && other)
  {
    if c.BusinessHours? && HasData(c, facts) {
      assert ConditionMatches(lower, c, facts) <==> facts.withinBusinessHours.value == c.within;
      assert ConditionMatches(lower, BusinessHours(!c.within), facts) <==> facts.withinBusinessHours.value == !c.within;
    }
  }

  /**
   Conditions combine with AND and the values of one `any` condition with OR; a blank value never
   matches, so it changes nothing in an `any` list and makes an `all` list match nothing.
   */
  lemma AndOfConditionsOrOfValues(lower: Lowering, a: seq<Condition>, b: seq<Condition>, facts: Facts,
                                  v: seq<string>, w: seq<string>, blank: string)
    requires lower(HexColour.Trim(blank)) == ""
    ensures RuleMatches(lower, a + b, facts) <==> RuleMatches(lower, a, facts) && RuleMatches(lower, b, facts)
    ensures ConditionMatches(lower, Keyword(Any, v + w), facts) <==>
              ConditionMatches(lower, Keyword(Any, v), facts) || ConditionMatches(lower, Keyword(Any, w), facts)
    ensures !ConditionMatches(lower, Keyword(Any, [blank]), facts)
    ensures !ConditionMatches(lower, Keyword(All, v + [blank]), facts)
  {
    forall i | 0 <= i < |a| + |b|
      ensures (a + b)[i] == if i < |a| then a[i] else b[i - |a|]
    {
    }
    assert forall i :: 0 <= i < |b| ==> b[i] == (a + b)[i + |a|];
    assert forall i :: 0 <= i < |w| ==> w[i] == (v + w)[i + |v|];
    assert forall i :: 0 <= i < |v| ==> v[i] == (v + w)[i];
    assert (v + [blank])[|v|] == blank;
  }

  // --- Loading only the facts a rule set reads --------------------------------------------------

  datatype Needed = Needed(messageBody: bool, tags: bool, customFields: bool, businessHours: bool)

  function FactsNeededBy(rules: seq<seq<Condition>>): Needed {
    var all := set r, c | r in rules && c in r :: c;
    Needed(exists c | c in all :: c.Keyword?,
           exists c | c in all :: c.Tag?,
           exists c | c in all :: c.ContactAttribute?,
           exists c | c in all :: c.BusinessHours?)
  }

  /** What is loaded: the sources nobody asked for stay unread. */
  function Loaded(needed: Needed, full: Facts): Facts {
    Facts(if needed.messageBody then full.messageBody else None,
          if needed.tags then full.tagIds else None,
          if needed.customFields then full.customFields else None,
          if needed.businessHours then full.withinBusinessHours else None)
  }

  /** Skipping the reads changes no answer: every rule of the set evaluates as it would with all four sources. */
  lemma LazyFactsSuffice(lower: Lowering, rules: seq<seq<Condition>>, k: nat, full: Facts)
    requires k < |rules|
    ensures RuleMatches(lower, rules[k], Loaded(FactsNeededBy(rules), full)) <==> RuleMatches(lower, rules[k], full)
  {
    var all := set r, c | r in rules && c in r :: c;
    forall i | 0 <= i < |rules[k]|
      ensures ConditionMatches(lower, rules[k][i], Loaded(FactsNeededBy(rules), full)) ==
              ConditionMatches(lower, rules[k][i], full)
    {
      assert rules[k] in rules && rules[k][i] in rules[k];
      assert rules[k][i] in all;
    }
  }

  // --- Which rule wins --------------------------------------------------------------------------

  datatype Target = UserTarget(user: Id) | TeamTarget(team: Id)

  /** A stored rule. `conditions` is `None` when the column does not parse. */
  datatype RuleRow = RuleRow(
    id: Id,
    position: nat,
    active: bool,
    conditions: Option<seq<Condition>>,
    targetUser: Option<Id>,
    targetTeam: Option<Id>)

  datatype CompiledRule = CompiledRule(id: Id, conditions: seq<Condition>, target: Target)

  datatype Person = Person(
    active: bool,
    agent: bool,
    available: bool,
    lastSeenAt: Option<nat>,
    maxConcurrentTickets: Option<nat>,
    teams: set<Id>)

  type People = map<Id, Person>

  function ToRoutingTarget(row: RuleRow): Option<Target> {
    if row.targetUser.Some? then Some(UserTarget(row.targetUser.value))
    else if row.targetTeam.Some? then Some(TeamTarget(row.targetTeam.value))
    else None
  }

  predicate Before(a: RuleRow, b: RuleRow) {
    a.position < b.position || (a.position == b.position && a.id < b.id)
  }

  /** What `WHERE is_active ORDER BY position, id` returns from a table whose ids are a primary key. */
  ghost predicate IsListing(stored: set<RuleRow>, listing: seq<RuleRow>) {
    && (forall r :: r in listing <==> r in stored && r.active)
    && (forall i, j :: 0 <= i < j < |listing| ==> Before(listing[i], listing[j]))
  }

  /** A row the loader keeps: its conditions parse and it has a target. */
  function Compile(row: RuleRow): Option<CompiledRule> {
    if row.conditions.None? || ToRoutingTarget(row).None? then None
    else Some(CompiledRule(row.id, row.conditions.value, ToRoutingTarget(row).value))
  }

  function LoadActiveRules(listing: seq<RuleRow>): seq<CompiledRule> {
    if listing == [] then []
    else (if Compile(listing[0]).Some? then [Compile(listing[0]).value] else []) + LoadActiveRules(listing[1..])
  }

  predicate IsTargetUsable(people: People, target: Target) {
    match target
    case UserTarget(user) => user in people && people[user].active
    case TeamTarget(team) => exists u | u in people :: people[u].active && team in people[u].teams
  }

  predicate Usable(lower: Lowering, people: People, facts: Facts, rule: CompiledRule) {
    RuleMatches(lower, rule.conditions, facts) && IsTargetUsable(people, rule.target)
  }

  function FirstUsable(lower: Lowering, people: People, facts: Facts, rules: seq<CompiledRule>): Option<CompiledRule> {
    if rules == [] then None
    else if Usable(lower, people, facts, rules[0]) then Some(rules[0])
    else FirstUsable(lower, people, facts, rules[1..])
  }

  method FirstUsableMatch(lower: Lowering, people: People, facts: Facts, rules: seq<CompiledRule>)
    returns (matched: Option<CompiledRule>)
    ensures matched == FirstUsable(lower, people, facts, rules)
  {
    for k := 0 to |rules|
      invariant FirstUsable(lower, people, facts, rules[k..]) == FirstUsable(lower, people, facts, rules)
    {
      assert rules[k..][1..] == rules[k + 1..];
      var rule := rules[k];
      if !RuleMatches(lower, rule.conditions, facts) {
        continue;
      }
      if IsTargetUsable(people, rule.target) {
        return Some(rule);
      }
    }
    return None;
  }

  /** A stored rule that could take the ticket: active, well-formed, matching, with a target that can work. */
  predicate Candidate(lower: Lowering, people: People, facts: Facts, row: RuleRow) {
    row.active && Compile(row).Some? && Usable(lower, people, facts, Compile(row).value)
  }

  /** The declarative winner: the candidate before every other candidate in (position, id) order. */
  ghost predicate Wins(lower: Lowering, people: People, facts: Facts, stored: set<RuleRow>, row: RuleRow) {
    && row in stored && Candidate(lower, people, facts, row)
    && forall other :: other in stored && Candidate(lower, people, facts, other) ==> other == row || Before(row, other)
  }

  function Selected(lower: Lowering, people: People, facts: Facts, listing: seq<RuleRow>): Option<CompiledRule> {
    FirstUsable(lower, people, facts, LoadActiveRules(listing))
  }

  lemma {:induction false} SelectedSkips(lower: Lowering, people: People, facts: Facts, listing: seq<RuleRow>)
    requires listing != [] && listing[0].active
    ensures Selected(lower, people, facts, listing) ==
              if Candidate(lower, people, facts, listing[0]) then Compile(listing[0])
              else Selected(lower, people, facts, listing[1..])
  {
    var rest := LoadActiveRules(listing[1..]);
    match Compile(listing[0])
    case None => assert LoadActiveRules(listing) == rest;
    case Some(rule) => assert LoadActiveRules(listing) == [rule] + rest && ([rule] + rest)[1..] == rest;
  }

  lemma {:induction false} SelectedIsFirst(lower: Lowering, people: People, facts: Facts, listing: seq<RuleRow>)
    requires forall r :: r in listing ==> r.active
    ensures Selected(lower, people, facts, listing).None? <==>
              forall i :: 0 <= i < |listing| ==> !Candidate(lower, people, facts, listing[i])
    ensures Selected(lower, people, facts, listing).Some? ==>
              exists i :: 0 <= i < |listing| && Candidate(lower, people, facts, listing[i])
                && Selected(lower, people, facts, listing) == Compile(listing[i])
                && forall j :: 0 <= j < i ==> !Candidate(lower, people, facts, listing[j])
  {
    if listing == [] {
    } else {
      SelectedSkips(lower, people, facts, listing);
      var rest := listing[1..];
      if Candidate(lower, people, facts, listing[0]) {
      } else {
        SelectedIsFirst(lower, people, facts, rest);
        assert forall i :: 0 < i < |listing| ==> listing[i] == rest[i - 1];
        if Selected(lower, people, facts, rest).Some? {
          var i :| 0 <= i < |rest| && Candidate(lower, people, facts, rest[i])
            && Selected(lower, people, facts, rest) == Compile(rest[i])
            && forall j :: 0 <= j < i ==> !Candidate(lower, people, facts, rest[j]);
          assert rest[i] == listing[i + 1];
        }
      }
    }
  }

  /**
   The loop over the loaded listing picks the declarative winner of the stored table, for every table:
   a rule is selected exactly when some stored rule wins, and then it is that rule; none is selected
   exactly when no stored rule can take the ticket.
   */
  lemma SelectedWins(lower: Lowering, people: People, facts: Facts, stored: set<RuleRow>, listing: seq<RuleRow>, row: RuleRow)
    requires IsListing(stored, listing)
    ensures Wins(lower, people, facts, stored, row) ==> Selected(lower, people, facts, listing) == Compile(row)
    ensures Selected(lower, people, facts, listing).Some? ==>
              exists w :: Wins(lower, people, facts, stored, w) && Selected(lower, people, facts, listing) == Compile(w)
    ensures Selected(lower, people, facts, listing).None? <==>
              forall r :: r in stored ==> !Candidate(lower, people, facts, r)
  {
    SelectedIsFirst(lower, people, facts, listing);
    if Selected(lower, people, facts, listing).Some? {
      var i :| 0 <= i < |listing| && Candidate(lower, people, facts, listing[i])
        && Selected(lower, people, facts, listing) == Compile(listing[i])
        && forall j :: 0 <= j < i ==> !Candidate(lower, people, facts, listing[j]);
      forall other | other in stored && Candidate(lower, people, facts, other)
        ensures other == listing[i] || Before(listing[i], other)
      {
        assert other in listing;
        var j :| 0 <= j < |listing| && listing[j] == other;
      }
      assert listing[i] in listing;
      assert Wins(lower, people, facts, stored, listing[i]);
    } else {
      forall r | r in stored
        ensures !Candidate(lower, people, facts, r)
      {
        if r.active {
          assert r in listing;
        }
      }
    }
  }
}
