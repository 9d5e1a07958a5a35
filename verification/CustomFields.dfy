/**
 A contact's custom field values: what is legal, how a write merges into what is stored, and what edits,
 option changes and deletions leave behind over a whole run.

 Two library answers are parameters of `Library`: whether `Number(value)` is finite, and whether
 `Date.parse(value)` is a date.
 */
module CustomFields {
  import opened Common
  import HexColour

  type Key = string

  datatype FieldType = Text | Number | Boolean | DateField | Select

  datatype Definition = Definition(kind: FieldType, options: seq<string>)

  type Definitions = map<Key, Definition>

  datatype Library = Library(finite: string -> bool, parses: string -> bool)

  const TEXT_VALUE_LENGTH: nat := 500

  predicate HasDatePattern(v: string) {
    && |v| == 10 && v[4] == '-' && v[7] == '-'
    && forall i | i in {0, 1, 2, 3, 5, 6, 8, 9} :: IsDigit(v[i])
  }

  /** `customFieldValueIssue` finds nothing to say. Clearing is legal for every type. */
  predicate Legal(lib: Library, d: Definition, value: Option<string>) {
    value.None? ||
    var v := value.value;
    match d.kind
    case Text => |v| <= TEXT_VALUE_LENGTH
    case Number => HexColour.Trim(v) != "" && lib.finite(v)
    case Boolean => v == "true" || v == "false"
    case DateField => HasDatePattern(v) && lib.parses(v)
    case Select => v in d.options
  }

  // --- The merge --------------------------------------------------------------------------------

  /** Stored values and patches have one type in the source, where a null can appear; here too. */
  type Values = map<Key, Option<string>>

  predicate Acceptable(lib: Library, defs: Definitions, key: Key, value: Option<string>) {
    key in defs && Legal(lib, defs[key], value)
  }

  /** The keys a refusal names: every one at fault, not the first. */
  function Issues(lib: Library, defs: Definitions, patch: Values): set<Key> {
    set k | k in patch && !Acceptable(lib, defs, k, patch[k])
  }

  /** The merge, when nothing is at fault. */
  function Merged(stored: Values, patch: Values): Values {
    map k | k in stored.Keys + patch.Keys && (k in patch ==> patch[k].Some?) :: if k in patch then patch[k] else stored[k]
  }

  datatype Result = Ok(values: Values) | Invalid(keys: set<Key>)

  function Merge(lib: Library, defs: Definitions, stored: Values, patch: Values): Result {
    var issues := Issues(lib, defs, patch);
    if issues == {} then Ok(Merged(stored, patch)) else Invalid(issues)
  }

  datatype Entry = Entry(key: Key, value: Option<string>)

  /** The patch that a list of `Object.entries` makes up. */
  function PatchOf(entries: seq<Entry>): Values {
    if entries == [] then map[]
    else PatchOf(entries[..|entries| - 1])[entries[|entries| - 1].key := entries[|entries| - 1].value]
  }

  /** What of a patch would be written: the acceptable keys. */
  function Good(lib: Library, defs: Definitions, patch: Values): Values {
    map k | k in patch && Acceptable(lib, defs, k, patch[k]) :: patch[k]
  }

  /** `mergeCustomFieldValues`: entry by entry into a copy, every issue collected before refusing. */
  method MergeCustomFieldValues(lib: Library, defs: Definitions, stored: Values, entries: seq<Entry>) returns (r: Result)
    requires forall i, j :: 0 <= i < j < |entries| ==> entries[i].key != entries[j].key
    ensures r == Merge(lib, defs, stored, PatchOf(entries))
  {
    var issues: set<Key> := {};
    var merged := stored;
    for n := 0 to |entries|
      invariant issues == Issues(lib, defs, PatchOf(entries[..n]))
      invariant merged == Merged(stored, Good(lib, defs, PatchOf(entries[..n])))
    {
      var key, value := entries[n].key, entries[n].value;
      assert entries[..n + 1][..n] == entries[..n];
      PatchKeys(entries[..n]);
      if !Acceptable(lib, defs, key, value) {
        OneMoreIssue(lib, defs, PatchOf(entries[..n]), key, value);
        issues := issues + {key};
        continue;
      }
      OneMoreGood(lib, defs, PatchOf(entries[..n]), key, value);
      MergedOneMore(stored, Good(lib, defs, PatchOf(entries[..n])), key, value);
      merged := if value.None? then merged - {key} else merged[key := value];
    }
    assert entries[..|entries|] == entries;
    if issues == {} {
      NoIssuesAllGood(lib, defs, PatchOf(entries));
      return Ok(merged);
    }
    return Invalid(issues);
  }

  lemma NoIssuesAllGood(lib: Library, defs: Definitions, patch: Values)
    requires Issues(lib, defs, patch) == {}
    ensures Good(lib, defs, patch) == patch
  {
    forall k | k in patch
      ensures Acceptable(lib, defs, k, patch[k])
    {
      assert k !in Issues(lib, defs, patch);
    }
  }

  /** One more entry that is at fault goes to the issues and nowhere else. */
  lemma OneMoreIssue(lib: Library, defs: Definitions, patch: Values, key: Key, value: Option<string>)
    requires key !in patch && !Acceptable(lib, defs, key, value)
    ensures Issues(lib, defs, patch[key := value]) == Issues(lib, defs, patch) + {key}
    ensures Good(lib, defs, patch[key := value]) == Good(lib, defs, patch)
  {
  }

  /** One that is not is written, or cleared. */
  lemma OneMoreGood(lib: Library, defs: Definitions, patch: Values, key: Key, value: Option<string>)
    requires key !in patch && Acceptable(lib, defs, key, value)
    ensures Issues(lib, defs, patch[key := value]) == Issues(lib, defs, patch)
    ensures Good(lib, defs, patch[key := value]) == Good(lib, defs, patch)[key := value]
  {
  }

  lemma MergedOneMore(stored: Values, patch: Values, key: Key, value: Option<string>)
    requires key !in patch
    ensures Merged(stored, patch[key := value]) ==
              if value.None? then Merged(stored, patch) - {key} else Merged(stored, patch)[key := value]
  {
  }

  lemma {:induction false} PatchKeys(entries: seq<Entry>)
    ensures forall k :: k in PatchOf(entries) <==> exists i :: 0 <= i < |entries| && entries[i].key == k
  {
    if entries == [] {
    } else {
      PatchKeys(entries[..|entries| - 1]);
      assert entries == entries[..|entries| - 1] + [entries[|entries| - 1]];
    }
  }

  // --- Laws -------------------------------------------------------------------------------------

  predicate NoNulls(values: Values) { forall k | k in values :: values[k].Some? }

  /** No null is ever stored, an absent key is left exactly as it was, and a present one is set or cleared. */
  lemma MergeMeaning(stored: Values, patch: Values)
    ensures NoNulls(stored) ==> NoNulls(Merged(stored, patch))
    ensures forall k :: k !in patch ==>
              (k in Merged(stored, patch) <==> k in stored)
              && (k in stored ==> Merged(stored, patch)[k] == stored[k])
    ensures forall k :: k in patch ==>
              (k in Merged(stored, patch) <==> patch[k].Some?)
              && (patch[k].Some? ==> Merged(stored, patch)[k] == patch[k])
  {
  }

  /** Patches act: applying one and then another is applying their right-biased union. */
  lemma MergeIsAnAction(stored: Values, p: Values, q: Values)
    ensures Merged(Merged(stored, p), q) == Merged(stored, p + q)
    ensures NoNulls(stored) ==> Merged(stored, map[]) == stored
    ensures Merged(Merged(stored, p), p) == Merged(stored, p)
  {
  }

  /** Patches on different keys commute. */
  lemma DisjointPatchesCommute(stored: Values, p: Values, q: Values)
    requires p.Keys !! q.Keys
    ensures Merged(Merged(stored, p), q) == Merged(Merged(stored, q), p)
  {
  }

  /**
   Through the validation as well: two writes in a row succeed exactly when their union would, and then
   agree with it, unless the first write's fault is on a key the second overwrites.
   */
  lemma MergeComposes(lib: Library, defs: Definitions, stored: Values, p: Values, q: Values)
    ensures Merge(lib, defs, stored, p).Ok? && Merge(lib, defs, Merged(stored, p), q).Ok? ==>
              Merge(lib, defs, stored, p + q) == Merge(lib, defs, Merged(stored, p), q)
    ensures Merge(lib, defs, stored, p + q).Ok? <==>
              Merge(lib, defs, stored, q).Ok? && Issues(lib, defs, p) <= q.Keys
    ensures Merge(lib, defs, stored, p).Invalid? ==>
              Merge(lib, defs, stored, p).keys != {}
              && forall k :: k in Merge(lib, defs, stored, p).keys <==> k in p && !Acceptable(lib, defs, k, p[k])
  {
    MergeIsAnAction(stored, p, q);
    var union := p + q;
    forall k
      ensures k in Issues(lib, defs, union) <==>
                k in Issues(lib, defs, q) || (k in Issues(lib, defs, p) && k !in q)
    {
      assert k in union ==> union[k] == if k in q then q[k] else p[k];
    }
    assert Issues(lib, defs, union) == {} <==>
             Issues(lib, defs, q) == {} && forall k :: k in Issues(lib, defs, p) ==> k in q.Keys by {
      if Issues(lib, defs, union) == {} {
        assert forall k :: k !in Issues(lib, defs, union);
      }
    }
  }

  // --- Runs of edits and definition changes -----------------------------------------------------

  /** `writtenUnder` is history: the definition each stored key was last validated against. */
  datatype State = State(defs: Definitions, values: Values, writtenUnder: map<Key, Definition>)

  datatype Step =
    /** A contact update that read the definitions `seen`. */
    | Edit(patch: Values, seen: Definitions)
    | Define(key: Key, definition: Definition)
    /** Label changes aside, only options are updatable. */
    | SetOptions(key: Key, options: seq<string>)
    /** The definition and every contact's value under it. */
    | Delete(key: Key)

  predicate OptionsMatchType(d: Definition) { d.kind == Select <==> |d.options| > 0 }

  function Next(lib: Library, s: State, step: Step): State {
    match step
    case Edit(patch, seen) =>
      (match Merge(lib, seen, s.values, patch)
       case Invalid(_) => s
       case Ok(values) =>
         s.(values := values,
            writtenUnder := s.writtenUnder + (map k | k in patch && k in seen :: seen[k])))
    case Define(key, d) => if key in s.defs || !OptionsMatchType(d) then s else s.(defs := s.defs[key := d])
    case SetOptions(key, options) =>
      if key !in s.defs || !OptionsMatchType(s.defs[key].(options := options)) then s
      else s.(defs := s.defs[key := s.defs[key].(options := options)])
    case Delete(key) => if key !in s.defs then s else s.(defs := s.defs - {key}, values := s.values - {key})
  }

  function Run(lib: Library, s: State, steps: seq<Step>): State {
    if steps == [] then s else Next(lib, Run(lib, s, steps[..|steps| - 1]), steps[|steps| - 1])
  }

  /** Every stored value is a value, and was legal when its key was last written. */
  ghost predicate LegalWhenWritten(lib: Library, s: State) {
    forall k :: k in s.values ==>
      s.values[k].Some? && k in s.writtenUnder && Legal(lib, s.writtenUnder[k], s.values[k])
  }

  lemma NextKeepsLegal(lib: Library, s: State, step: Step)
    requires LegalWhenWritten(lib, s)
    ensures LegalWhenWritten(lib, Next(lib, s, step))
  {
    if step.Edit? && Merge(lib, step.seen, s.values, step.patch).Ok? {
      assert forall k :: k in step.patch ==> k !in Issues(lib, step.seen, step.patch);
    }
  }

  /** In every run, of edits against any reading of the definitions. */
  lemma {:induction false} RunKeepsLegal(lib: Library, s: State, steps: seq<Step>)
    requires LegalWhenWritten(lib, s)
    ensures LegalWhenWritten(lib, Run(lib, s, steps))
  {
    if steps == [] {
    } else {
      RunKeepsLegal(lib, s, steps[..|steps| - 1]);
      NextKeepsLegal(lib, Run(lib, s, steps[..|steps| - 1]), steps[|steps| - 1]);
    }
  }

  /** Every edit of the run read the definitions in force when it committed. */
  ghost predicate FreshReads(lib: Library, s: State, steps: seq<Step>) {
    forall k :: 0 <= k < |steps| && steps[k].Edit? ==> steps[k].seen == Run(lib, s, steps[..k]).defs
  }

  /** A stored key is defined, by a field of the type it was written under. */
  ghost predicate Anchored(s: State) {
    forall k :: k in s.values ==> k in s.defs && k in s.writtenUnder && s.defs[k].kind == s.writtenUnder[k].kind
  }

  lemma NextKeepsAnchored(lib: Library, s: State, step: Step)
    requires Anchored(s) && (step.Edit? ==> step.seen == s.defs)
    ensures Anchored(Next(lib, s, step))
  {
    if step.Edit? && Merge(lib, step.seen, s.values, step.patch).Ok? {
      assert forall k :: k in step.patch ==> k !in Issues(lib, step.seen, step.patch);
    }
  }

  lemma {:induction false} RunKeepsAnchored(lib: Library, s: State, steps: seq<Step>)
    requires Anchored(s) && FreshReads(lib, s, steps)
    ensures Anchored(Run(lib, s, steps))
  {
    if steps == [] {
    } else {
      var n := |steps| - 1;
      forall k | 0 <= k < n && steps[..n][k].Edit?
        ensures steps[..n][k].seen == Run(lib, s, steps[..n][..k]).defs
      {
        assert steps[..n][..k] == steps[..k];
      }
      RunKeepsAnchored(lib, s, steps[..n]);
      NextKeepsAnchored(lib, Run(lib, s, steps[..n]), steps[n]);
    }
  }

  /**
   When edits read the definitions they commit under, a stored value can be illegal now for one reason
   only: it is an option since removed from its `select`.
   */
  lemma {:induction false} IllegalOnlyByRemovedOption(lib: Library, s: State, steps: seq<Step>, key: Key)
    requires Anchored(s) && LegalWhenWritten(lib, s) && FreshReads(lib, s, steps)
    requires key in Run(lib, s, steps).values
    ensures var t := Run(lib, s, steps);
            && key in t.defs && t.values[key].Some?
            && (!Legal(lib, t.defs[key], t.values[key]) <==>
                  t.defs[key].kind == Select && t.values[key].value !in t.defs[key].options)
  {
    RunKeepsAnchored(lib, s, steps);
    RunKeepsLegal(lib, s, steps);
  }

  /** The edit writes no value under a field that has gone, or come back as another type, since it read the definitions. */
  predicate Current(lib: Library, s: State, step: Step) {
    step.Edit? && Merge(lib, step.seen, s.values, step.patch).Ok? ==>
      forall k | k in step.patch && step.patch[k].Some? ::
        k in s.defs && k in step.seen && s.defs[k].kind == step.seen[k].kind
  }

  /**
   A step leaves every stored value under a field of the type it was written for exactly when it is not an
   edit that writes under a field deleted, or deleted and recreated as another type, since its reading.
   */
  lemma NextAnchoredExactly(lib: Library, s: State, step: Step)
    requires Anchored(s)
    ensures Anchored(Next(lib, s, step)) <==> Current(lib, s, step)
  {
    if step.Edit? && Merge(lib, step.seen, s.values, step.patch).Ok? {
      var t := Next(lib, s, step);
      assert forall k :: k in step.patch ==> k !in Issues(lib, step.seen, step.patch);
      forall k | k in step.patch && step.patch[k].Some?
        ensures k in t.values && k in step.seen && t.writtenUnder[k] == step.seen[k]
      {
      }
      assert forall k :: k in t.values && !(k in step.patch && step.patch[k].Some?) ==> k in s.values && k !in step.patch;
    }
  }

  ghost predicate AnchoredThroughout(lib: Library, s: State, steps: seq<Step>) {
    forall k :: 0 <= k <= |steps| ==> Anchored(Run(lib, s, steps[..k]))
  }

  ghost predicate CurrentThroughout(lib: Library, s: State, steps: seq<Step>) {
    forall k :: 0 <= k < |steps| ==> Current(lib, Run(lib, s, steps[..k]), steps[k])
  }

  lemma {:induction false} ThroughoutSnoc(lib: Library, s: State, steps: seq<Step>)
    requires steps != []
    ensures AnchoredThroughout(lib, s, steps) <==>
              AnchoredThroughout(lib, s, steps[..|steps| - 1]) && Anchored(Run(lib, s, steps))
    ensures CurrentThroughout(lib, s, steps) <==>
              CurrentThroughout(lib, s, steps[..|steps| - 1])
              && Current(lib, Run(lib, s, steps[..|steps| - 1]), steps[|steps| - 1])
  {
    var rest := steps[..|steps| - 1];
    assert forall k :: 0 <= k <= |rest| ==> rest[..k] == steps[..k];
    assert steps[..|steps|] == steps;
  }

  /** Over any run, no value is ever orphaned exactly when every edit is current as it commits. */
  lemma {:induction false} AnchoredExactly(lib: Library, s: State, steps: seq<Step>)
    requires Anchored(s)
    ensures AnchoredThroughout(lib, s, steps) <==> CurrentThroughout(lib, s, steps)
  {
    if steps == [] {
      assert steps[..0] == [];
    } else {
      var rest := steps[..|steps| - 1];
      AnchoredExactly(lib, s, rest);
      ThroughoutSnoc(lib, s, steps);
      if AnchoredThroughout(lib, s, rest) {
        assert rest[..|rest|] == rest;
        NextAnchoredExactly(lib, Run(lib, s, rest), steps[|steps| - 1]);
      }
    }
  }

  /**
   An edit that read the definitions before a concurrent deletion, on a contact the deletion had nothing
   to strip from, leaves a value under a key that no field defines.
   */
  lemma StaleReadOrphansValue(lib: Library)
    ensures var before: State := State(map["city" := Definition(Text, [])], map[], map[]);
            var deleted := Next(lib, before, Delete("city"));
            var edited := Next(lib, deleted, Edit(map["city" := Some("Oslo")], before.defs));
            "city" in edited.values && "city" !in edited.defs
  {
  }

  /** Nor does the field have to stay gone: recreated as a number before the edit commits, it holds a word. */
  lemma StaleReadMistypesValue(lib: Library)
    ensures var before: State := State(map["city" := Definition(Text, [])], map[], map[]);
            var recreated := Next(lib, Next(lib, before, Delete("city")), Define("city", Definition(Number, [])));
            var edited := Next(lib, recreated, Edit(map["city" := Some("Oslo")], before.defs));
            "city" in edited.values && edited.values["city"] == Some("Oslo")
            && "city" in edited.defs && edited.defs["city"].kind == Number
  {
  }
}
