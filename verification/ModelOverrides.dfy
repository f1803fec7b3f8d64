/**
 * The dashboard-owned overlay of autodev/installer/model_overrides.py: validation, merging and
 * application of per-model property overrides.
 */
module ModelOverrides {
  import opened Json

  const INPUT_MODALITIES: set<string> := {"text", "image", "video", "audio"}
  const COST_KEYS: set<string> := {"input", "output", "cacheRead", "cacheWrite"}
  const PARAM_KEYS: set<string> := {"temperature", "top_p"}
  const PLAIN_KEYS: set<string> := {"input", "contextWindow", "maxTokens", "reasoning"}
  const MAX_TOKENS_CEILING := 1_048_576
  const CONTEXT_WINDOW_CEILING := 16_777_216
  const COST_CEILING := 100_000.0

  /** A model reference and its override properties; the whole overlay maps references to properties. */
  type Overlay = map<string, J>

  // ---------------------------------------------------------------------------------------
  // Validation
  // ---------------------------------------------------------------------------------------

  predicate IsPositiveInt(v: J, ceiling: int) {
    v.Int? && 1 <= v.n <= ceiling
  }

  const TWO_64 := 0x1_0000_0000_0000_0000
  const TWO_256 := TWO_64 * TWO_64 * TWO_64 * TWO_64
  const TWO_970 := TWO_256 * TWO_256 * TWO_256 * TWO_64 * TWO_64 * TWO_64 * 0x400

  /**
   * The first integer that does not round to a finite double: 2**1024 - 2**970, halfway between the
   * largest double and 2**1024.
   */
  const FLOAT_BOUND := TWO_970 * 0x3F_FFFF_FFFF_FFFF

  /** `math.isfinite` raises OverflowError: it converts the integer to a float. */
  predicate BeyondFloat(v: J) {
    v.Int? && (v.n >= FLOAT_BOUND || v.n <= -FLOAT_BOUND)
  }

  predicate NumberWithin(v: J, low: real, high: real) {
    IsNumeric(v) && low <= NumberOf(v) <= high
  }

  predicate ValidModality(m: J) {
    m.Str? && m.s in INPUT_MODALITIES
  }

  predicate ValidInput(v: J) {
    v.Arr? && v.items != [] && (forall m | m in v.items :: ValidModality(m)) && Str("text") in v.items
  }

  predicate ValidCostEntry(k: string, v: J) {
    k in COST_KEYS && (v.Null? || NumberWithin(v, 0.0, COST_CEILING))
  }

  predicate ValidParam(k: string, v: J) {
    && k in PARAM_KEYS
    && (v.Null?
        || if k == "temperature" then NumberWithin(v, 0.0, 2.0)
           else NumberWithin(v, 0.0, 1.0) && NumberOf(v) > 0.0)
  }

  predicate ValidField(key: string, v: J) {
    v.Null? ||
    if key == "input" then ValidInput(v)
    else if key == "contextWindow" then IsPositiveInt(v, CONTEXT_WINDOW_CEILING)
    else if key == "maxTokens" then IsPositiveInt(v, MAX_TOKENS_CEILING)
    else if key == "reasoning" then v.Bool?
    else if key == "cost" then
      v.Obj? && v.fields != map[] && forall k | k in v.fields :: ValidCostEntry(k, v.fields[k])
    else if key == "params" then
      v.Obj? && v.fields != map[] && forall k | k in v.fields :: ValidParam(k, v.fields[k])
    else false
  }

  predicate ValidProps(props: J) {
    props.Obj? && props.fields != map[] && forall k | k in props.fields :: ValidField(k, props.fields[k])
  }

  /** The keys whose values are looked at as numbers. */
  function NumberKeys(key: string): set<string> {
    if key == "cost" then COST_KEYS else if key == "params" then PARAM_KEYS else {}
  }

  /** A price or a parameter is an integer beyond the float range. */
  predicate EntriesOverflow(key: string, entries: map<string, J>) {
    exists k | k in entries :: k in NumberKeys(key) && BeyondFloat(entries[k])
  }

  predicate FieldOverflows(key: string, v: J) {
    v.Obj? && EntriesOverflow(key, v.fields)
  }

  /** Validation raises for these properties. */
  predicate Overflows(props: J) {
    props.Obj? && exists key | key in props.fields :: FieldOverflows(key, props.fields[key])
  }

  predicate OverlayOverflows(o: Overlay) {
    exists ref | ref in o :: Overflows(o[ref])
  }

  lemma BoundIsLarge()
    ensures FLOAT_BOUND > MAX_TOKENS_CEILING
  {
  }

  /** What is valid never raises. */
  lemma ValidNeverOverflows(props: J)
    requires ValidProps(props)
    ensures !Overflows(props)
  {
    BoundIsLarge();
    forall key | key in props.fields ensures !FieldOverflows(key, props.fields[key]) {
      assert ValidField(key, props.fields[key]);
    }
  }

  predicate ValidOverlay(o: Overlay) {
    forall ref | ref in o :: ValidProps(o[ref])
  }

  /** One error per complaint, reduced to what it is about, none exactly on valid properties; `None` for a raise. */
  method ValidateModelOverride(props: J) returns (errors: Option<seq<string>>)
    ensures errors.None? <==> Overflows(props)
    ensures errors.Some? ==> (errors.value == [] <==> ValidProps(props))
  {
    if !props.Obj? || props.fields == map[] {
      return Some(["override"]);
    }
    var found: seq<string> := [];
    var todo := props.fields.Keys;
    while todo != {}
      invariant todo <= props.fields.Keys
      invariant forall k | k in props.fields && k !in todo :: !FieldOverflows(k, props.fields[k])
      invariant found == [] <==> forall k | k in props.fields && k !in todo :: ValidField(k, props.fields[k])
      decreases |todo|
    {
      var key :| key in todo;
      todo := todo - {key};
      var more := ValidateField(key, props.fields[key]);
      if more.None? { return None; }
      found := found + more.value;
    }
    errors := Some(found);
  }

  method ValidateField(key: string, value: J) returns (errors: Option<seq<string>>)
    ensures errors.None? <==> FieldOverflows(key, value)
    ensures errors.Some? ==> (errors.value == [] <==> ValidField(key, value))
  {
    errors := Some([]);
    if value.Null? {
    } else if key == "input" {
      var found := ValidateInput(value);
      errors := Some(found);
    } else if key == "contextWindow" {
      if !IsPositiveInt(value, CONTEXT_WINDOW_CEILING) { errors := Some([key]); }
    } else if key == "maxTokens" {
      if !IsPositiveInt(value, MAX_TOKENS_CEILING) { errors := Some([key]); }
    } else if key == "reasoning" {
      if !value.Bool? { errors := Some([key]); }
    } else if key == "cost" || key == "params" {
      if !value.Obj? || value.fields == map[] { return Some([key]); }
      errors := ValidateEntries(key, value.fields);
    } else {
      errors := Some([key]);
    }
  }

  method ValidateInput(value: J) returns (errors: seq<string>)
    ensures errors == [] <==> ValidInput(value)
  {
    errors := [];
    if !value.Arr? || value.items == [] || exists m | m in value.items :: !ValidModality(m) {
      errors := ["input"];
    } else if Str("text") !in value.items {
      errors := ["input"];
    }
  }

  /** `_is_number`; `None` where it raises. */
  method IsNumber(value: J) returns (r: Option<bool>)
    ensures r == if BeyondFloat(value) then None else Some(IsNumeric(value))
  {
    if BeyondFloat(value) { return None; }
    r := Some(IsNumeric(value));
  }

  /** What is asked of a number, by its key. */
  predicate InRange(key: string, k: string, v: J)
    requires IsNumeric(v)
  {
    var x := NumberOf(v);
    if key == "cost" then 0.0 <= x <= COST_CEILING
    else if k == "temperature" then 0.0 <= x <= 2.0
    else 0.0 < x <= 1.0
  }

  predicate ValidEntry(key: string, k: string, v: J) {
    if key == "cost" then ValidCostEntry(k, v) else ValidParam(k, v)
  }

  /** The prices, or the parameters, one by one. */
  method ValidateEntries(key: string, entries: map<string, J>) returns (errors: Option<seq<string>>)
    requires key == "cost" || key == "params"
    ensures errors.None? <==> EntriesOverflow(key, entries)
    ensures errors.Some? ==> (errors.value == [] <==> forall k | k in entries :: ValidEntry(key, k, entries[k]))
  {
    var found: seq<string> := [];
    var todo := entries.Keys;
    while todo != {}
      invariant todo <= entries.Keys
      invariant forall k | k in entries && k !in todo :: !(k in NumberKeys(key) && BeyondFloat(entries[k]))
      invariant found == [] <==> forall k | k in entries && k !in todo :: ValidEntry(key, k, entries[k])
      decreases |todo|
    {
      var k :| k in todo;
      todo := todo - {k};
      if k !in NumberKeys(key) {
        found := found + [key];
      } else if !entries[k].Null? {
        var number := IsNumber(entries[k]);
        if number.None? { return None; }
        if !number.value || !InRange(key, k, entries[k]) { found := found + [key + "." + k]; }
      }
    }
    errors := Some(found);
  }

  /** The rules as the dashboard states them; a null, which clears the property, is always accepted. */
  lemma FieldRules(key: string, v: J)
    requires !v.Null?
    ensures key == "contextWindow" ==> (ValidField(key, v) <==> v.Int? && 1 <= v.n <= 16_777_216)
    ensures key == "maxTokens" ==> (ValidField(key, v) <==> v.Int? && 1 <= v.n <= 1_048_576)
    ensures key == "reasoning" ==> (ValidField(key, v) <==> v == Bool(true) || v == Bool(false))
    ensures key == "input" ==> (ValidField(key, v) <==>
              && v.Arr? && Str("text") in v.items
              && forall m | m in v.items :: m in {Str("text"), Str("image"), Str("video"), Str("audio")})
    ensures key == "cost" ==> (ValidField(key, v) <==>
              && v.Obj? && v.fields != map[] && v.fields.Keys <= {"input", "output", "cacheRead", "cacheWrite"}
              && forall k | k in v.fields :: v.fields[k].Null? || NumberWithin(v.fields[k], 0.0, 100_000.0))
    ensures key == "params" ==> (ValidField(key, v) <==>
              && v.Obj? && v.fields != map[] && v.fields.Keys <= {"temperature", "top_p"}
              && ("temperature" in v.fields ==>
                    v.fields["temperature"].Null? || NumberWithin(v.fields["temperature"], 0.0, 2.0))
              && ("top_p" in v.fields ==>
                    v.fields["top_p"].Null? || (NumberWithin(v.fields["top_p"], 0.0, 1.0)
                                                && NumberOf(v.fields["top_p"]) != 0.0)))
    ensures key !in {"contextWindow", "maxTokens", "reasoning", "input", "cost", "params"} ==> !ValidField(key, v)
  {
    if v.Bool? { assert v == Bool(v.b); }
  }

  /** The entries the boot keeps. */
  function ValidPart(o: Overlay): Overlay {
    map ref | ref in o && ValidProps(o[ref]) :: o[ref]
  }

  /**
   * Every entry lands on exactly one side, by the same validation, and a dropped one carries its
   * errors; but one entry on which validation raises ends it all.
   */
  method SplitValidOverrides(o: Overlay) returns (raised: bool, valid: Overlay, dropped: map<string, seq<string>>)
    ensures raised <==> OverlayOverflows(o)
    ensures !raised ==> valid == ValidPart(o) && dropped.Keys == o.Keys - valid.Keys
    ensures !raised ==> forall ref | ref in dropped :: dropped[ref] != []
  {
    raised, valid, dropped := false, map[], map[];
    var todo := o.Keys;
    while todo != {}
      invariant todo <= o.Keys && !raised
      invariant forall ref | ref in o && ref !in todo :: !Overflows(o[ref])
      invariant valid == map ref | ref in o && ref !in todo && ValidProps(o[ref]) :: o[ref]
      invariant dropped.Keys == set ref | ref in o && ref !in todo && !ValidProps(o[ref])
      invariant forall ref | ref in dropped :: dropped[ref] != []
      decreases |todo|
    {
      var ref :| ref in todo;
      todo := todo - {ref};
      var errors := ValidateModelOverride(o[ref]);
      if errors.None? { return true, valid, dropped; }
      if errors.value != [] {
        dropped := dropped[ref := errors.value];
      } else {
        valid := valid[ref := o[ref]];
      }
    }
  }

  // ---------------------------------------------------------------------------------------
  // Merging
  // ---------------------------------------------------------------------------------------

  function Lookup(m: map<string, J>, k: string): Option<J> {
    if k in m then Some(m[k]) else None
  }

  function NonNull(m: map<string, J>): map<string, J> {
    map k | k in m && !m[k].Null? :: m[k]
  }

  /** `sub` with every non-null update set and every null one cleared. */
  function MergeSub(sub: map<string, J>, updates: map<string, J>): map<string, J> {
    (sub - updates.Keys) + NonNull(updates)
  }

  /** `dict(v or {})`: an absent or falsy value counts as empty; a truthy non-object is a type error. */
  function SubDict(v: Option<J>): Option<map<string, J>> {
    match v
    case None => Some(map[])
    case Some(j) => if j.Obj? then Some(j.fields) else if !Truthy(j) then Some(map[]) else None
  }

  predicate MergesPerKey(key: string, update: J) {
    update.Obj? && (key == "cost" || key == "params")
  }

  predicate FieldMergeable(key: string, prior: Option<J>, update: J) {
    MergesPerKey(key, update) ==> SubDict(prior).Some?
  }

  /** One field after the update; `None` when it is gone. */
  function MergeField(key: string, prior: Option<J>, update: J): Option<J>
    requires FieldMergeable(key, prior, update)
  {
    if update.Null? then None
    else if MergesPerKey(key, update) then
      var sub := MergeSub(SubDict(prior).value, update.fields);
      if sub == map[] then None else Some(Obj(sub))
    else Some(update)
  }

  function EntryFields(existing: J): map<string, J> {
    if existing.Obj? then existing.fields else map[]
  }

  predicate Mergeable(existing: J, updates: map<string, J>) {
    forall k | k in updates :: FieldMergeable(k, Lookup(EntryFields(existing), k), updates[k])
  }

  /** One model's entry with `updates` merged in. */
  function MergeProps(existing: J, updates: map<string, J>): map<string, J>
    requires Mergeable(existing, updates)
  {
    var prior := EntryFields(existing);
    map k | k in prior.Keys + updates.Keys && (k in updates ==> MergeField(k, Lookup(prior, k), updates[k]).Some?) ::
      if k in updates then MergeField(k, Lookup(prior, k), updates[k]).value else prior[k]
  }

  function EntryOrEmpty(o: Overlay, ref: string): J {
    if ref in o then o[ref] else Obj(map[])
  }

  predicate RefMergeable(existing: Overlay, updates: Overlay, ref: string) {
    ref in updates ==> updates[ref].Obj? && Mergeable(EntryOrEmpty(existing, ref), updates[ref].fields)
  }

  /** The shapes under which merging raises no type error. */
  predicate OverlaysMergeable(existing: Overlay, updates: Overlay) {
    forall ref | ref in updates :: RefMergeable(existing, updates, ref)
  }

  /** One model's entry after the update; an entry left empty disappears. */
  function MergedEntry(existing: Overlay, updates: Overlay, ref: string): Option<J>
    requires RefMergeable(existing, updates, ref)
  {
    if ref !in updates then Lookup(existing, ref)
    else
      var merged := MergeProps(EntryOrEmpty(existing, ref), updates[ref].fields);
      if merged == map[] then None else Some(Obj(merged))
  }

  /** The overlay with an update merged in. */
  function Merge(existing: Overlay, updates: Overlay): Overlay
    requires OverlaysMergeable(existing, updates)
  {
    map ref | ref in existing.Keys + updates.Keys && MergedEntry(existing, updates, ref).Some? ::
      MergedEntry(existing, updates, ref).value
  }

  /** What one key of a sub-object holds while the keys in `todo` are still to come. */
  function SubSoFar(sub: map<string, J>, updates: map<string, J>, todo: set<string>, k: string): Option<J> {
    if k !in updates || k in todo then Lookup(sub, k)
    else if updates[k].Null? then None
    else Some(updates[k])
  }

  /** The inner loop over one sub-object. */
  method MergeSubInPlace(sub: map<string, J>, updates: map<string, J>) returns (merged: map<string, J>)
    ensures merged == MergeSub(sub, updates)
  {
    merged := sub;
    var todo := updates.Keys;
    while todo != {}
      invariant todo <= updates.Keys
      invariant forall k :: Lookup(merged, k) == SubSoFar(sub, updates, todo, k)
      decreases |todo|
    {
      var key :| key in todo;
      var next := if updates[key].Null? then merged - {key} else merged[key := updates[key]];
      SubStep(sub, updates, todo, key, merged, next);
      merged, todo := next, todo - {key};
    }
    SubDone(sub, updates, merged);
  }

  lemma SubStep(sub: map<string, J>, updates: map<string, J>, todo: set<string>, key: string,
                merged: map<string, J>, next: map<string, J>)
    requires forall k :: Lookup(merged, k) == SubSoFar(sub, updates, todo, k)
    requires key in updates && next == if updates[key].Null? then merged - {key} else merged[key := updates[key]]
    ensures forall k :: Lookup(next, k) == SubSoFar(sub, updates, todo - {key}, k)
  {
    forall k ensures Lookup(next, k) == SubSoFar(sub, updates, todo - {key}, k) {
      assert Lookup(merged, k) == SubSoFar(sub, updates, todo, k);
    }
  }

  lemma SubDone(sub: map<string, J>, updates: map<string, J>, merged: map<string, J>)
    requires forall k :: Lookup(merged, k) == SubSoFar(sub, updates, {}, k)
    ensures merged == MergeSub(sub, updates)
  {
    forall k ensures Lookup(merged, k) == Lookup(MergeSub(sub, updates), k) {
      assert Lookup(merged, k) == SubSoFar(sub, updates, {}, k);
    }
    SameLookups(merged, MergeSub(sub, updates));
  }

  /** One turn of the outer loop; `None` where `dict()` raises. */
  method MergeFieldInPlace(merged: map<string, J>, key: string, value: J) returns (r: Option<map<string, J>>)
    ensures r.Some? <==> FieldMergeable(key, Lookup(merged, key), value)
    ensures r.Some? ==> Lookup(r.value, key) == MergeField(key, Lookup(merged, key), value)
    ensures r.Some? ==> forall k | k != key :: Lookup(r.value, k) == Lookup(merged, k)
  {
    if value.Null? { return Some(merged - {key}); }
    if !MergesPerKey(key, value) { return Some(merged[key := value]); }
    var sub := SubDict(Lookup(merged, key));
    if sub.None? { return None; }
    var fields := MergeSubInPlace(sub.value, value.fields);
    r := Some(if fields != map[] then merged[key := Obj(fields)] else merged - {key});
  }

  method MergePropsInPlace(existing: J, updates: map<string, J>) returns (r: Option<map<string, J>>)
    ensures r == if Mergeable(existing, updates) then Some(MergeProps(existing, updates)) else None
  {
    ghost var prior := EntryFields(existing);
    var merged := EntryFields(existing);
    var todo := updates.Keys;
    while todo != {}
      invariant todo <= updates.Keys
      invariant forall k | k in updates && k !in todo :: FieldMergeable(k, Lookup(prior, k), updates[k])
      invariant forall k | k !in updates || k in todo :: Lookup(merged, k) == Lookup(prior, k)
      invariant forall k | k in updates && k !in todo ::
                  Lookup(merged, k) == MergeField(k, Lookup(prior, k), updates[k])
      decreases |todo|
    {
      var key :| key in todo;
      todo := todo - {key};
      var next := MergeFieldInPlace(merged, key, updates[key]);
      if next.None? {
        assert !FieldMergeable(key, Lookup(prior, key), updates[key]);
        return None;
      }
      merged := next.value;
    }
    AllMerged(existing, updates, merged);
    r := Some(merged);
  }

  lemma AllMerged(existing: J, updates: map<string, J>, merged: map<string, J>)
    requires Mergeable(existing, updates)
    requires forall k | k !in updates :: Lookup(merged, k) == Lookup(EntryFields(existing), k)
    requires forall k | k in updates :: Lookup(merged, k) == MergeField(k, Lookup(EntryFields(existing), k), updates[k])
    ensures merged == MergeProps(existing, updates)
  {
    forall k ensures Lookup(merged, k) == Lookup(MergeProps(existing, updates), k) {
    }
    SameLookups(merged, MergeProps(existing, updates));
  }

  lemma SameLookups(a: map<string, J>, b: map<string, J>)
    requires forall k :: Lookup(a, k) == Lookup(b, k)
    ensures a == b
  {
    assert forall k :: k in a <==> k in b by {
      forall k ensures k in a <==> k in b { assert Lookup(a, k) == Lookup(b, k); }
    }
    forall k | k in a ensures a[k] == b[k] { assert Lookup(a, k) == Lookup(b, k); }
  }

  /** One model's merged entry: no error exactly on mergeable shapes. */
  method MergeOne(existing: Overlay, updates: Overlay, ref: string) returns (ok: bool, entry: Option<J>)
    requires ref in updates
    ensures ok <==> RefMergeable(existing, updates, ref)
    ensures ok ==> entry == MergedEntry(existing, updates, ref)
  {
    if !updates[ref].Obj? {
      return false, None;
    }
    var merged := MergePropsInPlace(EntryOrEmpty(existing, ref), updates[ref].fields);
    ok := merged.Some?;
    entry := if merged.None? || merged.value == map[] then None else Some(Obj(merged.value));
  }

  /** What one model's entry is while the references in `todo` are still to come. */
  function EntrySoFar(existing: Overlay, updates: Overlay, todo: set<string>, ref: string): Option<J> {
    if ref in updates && ref !in todo && RefMergeable(existing, updates, ref) then MergedEntry(existing, updates, ref)
    else Lookup(existing, ref)
  }

  lemma EntryStep(existing: Overlay, updates: Overlay, todo: set<string>, ref: string,
                  result: Overlay, next: Overlay, entry: Option<J>)
    requires forall r :: Lookup(result, r) == EntrySoFar(existing, updates, todo, r)
    requires ref in updates && RefMergeable(existing, updates, ref) && entry == MergedEntry(existing, updates, ref)
    requires next == if entry.Some? then result[ref := entry.value] else result - {ref}
    ensures forall r :: Lookup(next, r) == EntrySoFar(existing, updates, todo - {ref}, r)
  {
    forall r ensures Lookup(next, r) == EntrySoFar(existing, updates, todo - {ref}, r) {
      assert Lookup(result, r) == EntrySoFar(existing, updates, todo, r);
    }
  }

  method MergeModelOverrides(existing: Overlay, updates: Overlay) returns (r: Option<Overlay>)
    ensures r == if OverlaysMergeable(existing, updates) then Some(Merge(existing, updates)) else None
  {
    var result := existing;
    var todo := updates.Keys;
    while todo != {}
      invariant todo <= updates.Keys
      invariant forall ref | ref in updates && ref !in todo :: RefMergeable(existing, updates, ref)
      invariant forall ref :: Lookup(result, ref) == EntrySoFar(existing, updates, todo, ref)
      decreases |todo|
    {
      var ref :| ref in todo;
      assert Lookup(result, ref) == EntrySoFar(existing, updates, todo, ref);
      var ok, entry := MergeOne(result, updates, ref);
      if !ok {
        return None;
      }
      var next := if entry.Some? then result[ref := entry.value] else result - {ref};
      EntryStep(existing, updates, todo, ref, result, next, entry);
      result, todo := next, todo - {ref};
    }
    assert forall ref :: EntrySoFar(existing, updates, todo, ref) == MergedEntry(existing, updates, ref);
    MergedEverywhere(existing, updates, result);
    r := Some(result);
  }

  lemma MergedEverywhere(existing: Overlay, updates: Overlay, result: Overlay)
    requires OverlaysMergeable(existing, updates)
    requires forall ref :: Lookup(result, ref) == MergedEntry(existing, updates, ref)
    ensures result == Merge(existing, updates)
  {
    forall ref ensures Lookup(result, ref) == Lookup(Merge(existing, updates), ref) {
      assert Lookup(result, ref) == MergedEntry(existing, updates, ref);
    }
    SameLookups(result, Merge(existing, updates));
  }
}
