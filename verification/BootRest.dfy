/**
 * What the doctor's check comes down to for any configuration at all: it carries the overrides of the
 * template's models, and it meets what the template asks for besides the overridden values.
 */
module BootRest {
  import opened Json
  import opened OpenclawTemplate
  import opened JsonPaths
  import opened ConformancePaths
  import opened ModelOverrides
  import opened OverlayApply
  import opened OverlayEffects
  import opened OverlayLaws
  import opened BootSteps
  import opened BootDropped

  /** The overrides of models that the template registers; the other ones do nothing to it. */
  function Known(t: J, o: Overlay): Overlay {
    map ref | ref in o && Registered(t, ref) && o[ref].Obj? :: o[ref]
  }

  function BlankField(k: string, v: J): J {
    if v.Null? || k !in {"cost", "params"} then (if v.Null? then Null else Bool(true))
    else if v.Obj? then Obj(map c | c in v.fields :: if v.fields[c].Null? then Null else Bool(true))
    else v
  }

  function Blanked(props: J): J {
    if props.Obj? then Obj(map k | k in props.fields :: BlankField(k, props.fields[k])) else props
  }

  /** The overlay with one and the same value everywhere. */
  function Blank(o: Overlay): Overlay {
    map ref | ref in o :: Blanked(o[ref])
  }

  /** The configuration meets what the template asks for, once the overridden values are alike on both sides. */
  ghost predicate RestMet(t: J, o: Overlay, r: J) {
    var blank := Blank(Known(t, o));
    Conforms(ApplyAll(t, blank, blank.Keys), ApplyAll(r, blank, blank.Keys))
  }

  /** It carries the overrides of the template's models. */
  predicate CarriesAll(t: J, o: Overlay, r: J) {
    forall ref | ref in o && Registered(t, ref) && o[ref].Obj? :: Carries(r, ref, o[ref].fields)
  }

  // ---------------------------------------------------------------------------------------
  // Overrides that set the same keys
  // ---------------------------------------------------------------------------------------

  predicate SameKeysIf(a: Option<map<string, J>>, b: Option<map<string, J>>) {
    if a.Some? then b.Some? && a.value.Keys == b.value.Keys else b.None?
  }

  predicate SameKeys(x: map<string, J>, y: map<string, J>) {
    && PlainPatch(x).Keys == PlainPatch(y).Keys
    && SameKeysIf(SubPatch(x, "cost"), SubPatch(y, "cost"))
    && SameKeysIf(SubPatch(x, "params"), SubPatch(y, "params"))
  }

  /** The later one of two such overrides is all that is left of them. */
  lemma AppliedAgain(c: J, ref: string, x: J, y: J)
    requires x.Obj? && y.Obj? && SameKeys(x.fields, y.fields)
    ensures ApplyRef(ApplyRef(c, ref, x), ref, y) == ApplyRef(c, ref, y)
  {
    assert forall a: map<string, J>, b: map<string, J> | a.Keys == b.Keys :: a + b == b;
    ApplyJoined(c, ref, x.fields, y.fields, y.fields);
  }

  lemma AllAgain(c: J, a: Overlay, b: Overlay)
    requires ProperRefs(b) && a.Keys <= b.Keys
    requires forall ref | ref in a :: a[ref].Obj? && b[ref].Obj? && SameKeys(a[ref].fields, b[ref].fields)
    ensures ApplyAll(ApplyAll(c, a, a.Keys), b, b.Keys) == ApplyAll(c, b, b.Keys)
  {
    forall d, ref | ref in b ensures ApplyIn(ApplyIn(d, a, ref), b, ref) == ApplyIn(d, b, ref) {
      if ref in a { AppliedAgain(d, ref, a[ref], b[ref]); }
    }
    assert b.Keys == a.Keys + b.Keys && b.Keys * a.Keys == a.Keys && b.Keys * b.Keys == b.Keys;
    ApplySetBySet(c, a, b, b, b.Keys);
  }

  lemma BlankedKeys(x: map<string, J>)
    ensures Blanked(Obj(x)).Obj? && SameKeys(x, Blanked(Obj(x)).fields)
    ensures PropsMetBy(Blanked(Obj(x)).fields, Blanked(Obj(x)).fields)
    ensures Sets(Obj(x), "cost") == Sets(Blanked(Obj(x)), "cost")
    ensures Sets(Obj(x), "params") == Sets(Blanked(Obj(x)), "params")
  {
    var y := Blanked(Obj(x)).fields;
    assert forall k | k in PlainPatch(y) :: PlainPatch(y)[k] == Bool(true);
    BlankedSub(x, "cost");
    BlankedSub(x, "params");
  }

  lemma BlankedSub(x: map<string, J>, key: string)
    requires key == "cost" || key == "params"
    ensures var y := Blanked(Obj(x)).fields;
            SameKeysIf(SubPatch(x, key), SubPatch(y, key)) && MetByIf(SubPatch(y, key), SubPatch(y, key))
  {
    var y := Blanked(Obj(x)).fields;
    if SubPatch(x, key).Some? {
      assert y[key] == BlankField(key, x[key]) && y[key].fields.Keys == x[key].fields.Keys;
    }
  }

  // ---------------------------------------------------------------------------------------
  // An override with the configuration's own values
  // ---------------------------------------------------------------------------------------

  function Own(now: map<string, J>, k: string, v: J): J {
    if v.Null? then Null else if k in now then now[k] else Bool(true)
  }

  function OwnFields(now: map<string, J>, patch: map<string, J>): map<string, J> {
    map k | k in patch :: Own(now, k, patch[k])
  }

  function MirrorField(r: J, ref: string, k: string, v: J): J {
    if k == "cost" && v.Obj? then Obj(OwnFields(FieldsAt(r, CostPath(ref)), v.fields))
    else if k == "params" && v.Obj? then Obj(OwnFields(FieldsAt(r, ParamsPath(ref)), v.fields))
    else if k in {"cost", "params"} then v
    else Own(FieldsAt(r, EntryPath(ref)), k, v)
  }

  /** The override with each value replaced by the one the configuration has there. */
  function Mirrored(r: J, ref: string, props: map<string, J>): map<string, J> {
    map k | k in props :: MirrorField(r, ref, k, props[k])
  }

  function Mirror(r: J, o: Overlay): Overlay {
    map ref | ref in o :: if o[ref].Obj? then Obj(Mirrored(r, ref, o[ref].fields)) else o[ref]
  }

  lemma ConformsKeepsNull(a: J, b: J)
    requires Conforms(a, b) && !a.Null?
    ensures !b.Null?
  {
  }

  /** A patch that the node meets is met by its own values. */
  lemma OwnMeets(now: map<string, J>, patch: map<string, J>)
    requires Conforms(Obj(patch), Obj(now)) && forall k | k in patch :: !patch[k].Null?
    ensures MetBy(patch, OwnFields(now, patch))
    ensures forall k | k in patch :: k in now && OwnFields(now, patch)[k] == now[k] && !now[k].Null?
  {
    forall k | k in patch ensures k in now && Conforms(patch[k], now[k]) && !now[k].Null? {
      ConformsKeepsNull(patch[k], now[k]);
    }
  }

  lemma PlainMirrors(r: J, ref: string, props: map<string, J>, k: string)
    requires k in props && k in PLAIN_KEYS
    ensures Mirrored(r, ref, props)[k] == Own(FieldsAt(r, EntryPath(ref)), k, props[k])
  {
    assert k != "cost" && k != "params";
  }

  lemma PlainHad(r: J, ref: string, props: map<string, J>)
    requires Carries(r, ref, props)
    ensures var now, patch := FieldsAt(r, EntryPath(ref)), PlainPatch(props);
            MetBy(patch, OwnFields(now, patch)) && forall k | k in patch :: k in now && !now[k].Null?
  {
    OwnMeets(FieldsAt(r, EntryPath(ref)), PlainPatch(props));
  }

  lemma MirroredPlain(r: J, ref: string, props: map<string, J>)
    requires Carries(r, ref, props)
    ensures PlainPatch(Mirrored(r, ref, props)) == OwnFields(FieldsAt(r, EntryPath(ref)), PlainPatch(props))
  {
    var now := FieldsAt(r, EntryPath(ref));
    PlainHad(r, ref, props);
    var m := Mirrored(r, ref, props);
    forall k | k in props && k in PLAIN_KEYS ensures m[k] == Own(now, k, props[k]) { PlainMirrors(r, ref, props, k); }
    PlainOwn(now, props, m);
  }

  lemma PlainOwn(now: map<string, J>, props: map<string, J>, m: map<string, J>)
    requires m.Keys == props.Keys && forall k | k in props && k in PLAIN_KEYS :: m[k] == Own(now, k, props[k])
    requires forall k | k in PlainPatch(props) :: k in now && !now[k].Null?
    ensures PlainPatch(m) == OwnFields(now, PlainPatch(props))
  {
    var own := OwnFields(now, PlainPatch(props));
    assert PlainPatch(m).Keys == own.Keys;
    assert forall k | k in own :: own[k] == now[k];
  }

  lemma OwnNonNull(now: map<string, J>, sub: map<string, J>)
    requires Conforms(Obj(NonNull(sub)), Obj(now))
    ensures NonNull(OwnFields(now, sub)) == OwnFields(now, NonNull(sub))
  {
    OwnMeets(now, NonNull(sub));
    var l, r := NonNull(OwnFields(now, sub)), OwnFields(now, NonNull(sub));
    forall k ensures Lookup(l, k) == Lookup(r, k) {
      if k in sub { assert OwnFields(now, sub)[k] == Own(now, k, sub[k]); }
    }
    SameLookups(l, r);
  }

  lemma SubOwn(now: map<string, J>, props: map<string, J>, key: string, m: map<string, J>)
    requires SubPatch(props, key).Some? && key in m && m[key] == Obj(OwnFields(now, props[key].fields))
    requires Conforms(Obj(SubPatch(props, key).value), Obj(now))
    ensures SubPatch(m, key) == Some(OwnFields(now, SubPatch(props, key).value))
  {
    assert m[key].fields.Keys == props[key].fields.Keys;
    OwnNonNull(now, props[key].fields);
  }

  lemma MirroredSub(r: J, ref: string, props: map<string, J>, key: string, p: seq<Step>)
    requires Carries(r, ref, props)
    requires (key == "cost" && p == CostPath(ref)) || (key == "params" && p == ParamsPath(ref))
    ensures SubPatch(props, key).None? ==> SubPatch(Mirrored(r, ref, props), key).None?
    ensures SubPatch(props, key).Some? ==>
              SubPatch(Mirrored(r, ref, props), key) == Some(OwnFields(FieldsAt(r, p), SubPatch(props, key).value))
  {
    var m := Mirrored(r, ref, props);
    if SubPatch(props, key).Some? {
      SubOwn(FieldsAt(r, p), props, key, m);
    } else if key in props {
      assert m[key] == MirrorField(r, ref, key, props[key]);
    }
  }

  lemma MirroredMeets(r: J, ref: string, props: map<string, J>)
    requires Carries(r, ref, props)
    ensures PropsMetBy(props, Mirrored(r, ref, props)) && SameKeys(props, Mirrored(r, ref, props))
  {
    MirroredPlain(r, ref, props);
    OwnMeets(FieldsAt(r, EntryPath(ref)), PlainPatch(props));
    MirroredSub(r, ref, props, "cost", CostPath(ref));
    if SubPatch(props, "cost").Some? { OwnMeets(FieldsAt(r, CostPath(ref)), SubPatch(props, "cost").value); }
    MirroredSub(r, ref, props, "params", ParamsPath(ref));
    if SubPatch(props, "params").Some? { OwnMeets(FieldsAt(r, ParamsPath(ref)), SubPatch(props, "params").value); }
  }

  /** Setting what is set already changes nothing. */
  lemma {:induction false} PutOwn(r: J, p: seq<Step>, coerce: bool, patch: map<string, J>)
    requires Get(r, p).Some? && Get(r, p).value.Obj?
    requires forall k | k in patch :: k in Get(r, p).value.fields && Get(r, p).value.fields[k] == patch[k]
    ensures Put(r, p, coerce, patch) == r
    decreases |p|
  {
    if p == [] {
      assert r.fields + patch == r.fields;
    } else {
      PutOwn(Child(r, p[0]), p[1..], coerce, patch);
    }
  }

  lemma PutOwnFields(r: J, p: seq<Step>, coerce: bool, patch: map<string, J>)
    requires Has(r, p, Some(patch)) && forall k | k in patch :: !patch[k].Null?
    ensures Put(r, p, coerce, OwnFields(FieldsAt(r, p), patch)) == r
  {
    OwnMeets(FieldsAt(r, p), patch);
    PutOwn(r, p, coerce, OwnFields(FieldsAt(r, p), patch));
  }

  lemma MirroredIsOwn(r: J, ref: string, props: map<string, J>)
    requires Carries(r, ref, props)
    ensures ApplyRef(r, ref, Obj(Mirrored(r, ref, props))) == r
  {
    MirroredPlain(r, ref, props);
    PutOwnFields(r, EntryPath(ref), false, PlainPatch(props));
    MirroredSub(r, ref, props, "cost", CostPath(ref));
    if SubPatch(props, "cost").Some? { PutOwnFields(r, CostPath(ref), true, SubPatch(props, "cost").value); }
    MirroredSub(r, ref, props, "params", ParamsPath(ref));
    if SubPatch(props, "params").Some? { PutOwnFields(r, ParamsPath(ref), false, SubPatch(props, "params").value); }
    if Registered(r, ref) { Applied(r, ref, Mirrored(r, ref, props)); }
  }

  lemma {:induction false} AllOwn(r: J, o: Overlay, refs: set<string>)
    requires ProperRefs(o) && refs <= o.Keys && forall ref | ref in refs :: ApplyRef(r, ref, o[ref]) == r
    ensures ApplyAll(r, o, refs) == r
    decreases |refs|
  {
    if refs != {} {
      var first :| first in refs;
      ApplyAnyFirst(r, o, refs, first);
      AllOwn(r, o, refs - {first});
    }
  }

  // ---------------------------------------------------------------------------------------
  // The check taken apart
  // ---------------------------------------------------------------------------------------

  /** An overlay of the template's models only, on a template ready for it. */
  predicate AllKnown(t: J, k: Overlay) {
    OverlayReady(t, k) && forall ref | ref in k :: k[ref].Obj? && Registered(t, ref)
  }

  lemma {:induction false} GetSmooth(r: J, p: seq<Step>, coerce: bool)
    requires Get(r, p).Some? && Get(r, p).value.Obj?
    ensures Smooth(r, p, coerce)
    decreases |p|
  {
    if p != [] { GetSmooth(Child(r, p[0]), p[1..], coerce); }
  }

  lemma HasSmooth(r: J, p: seq<Step>, coerce: bool, patch: map<string, J>)
    requires Has(r, p, Some(patch))
    ensures Smooth(r, p, coerce)
  {
    GetSmooth(r, p, coerce);
  }

  /** Dictionaries lead to everything that is carried. */
  lemma CarriesSmooth(r: J, ref: string, props: map<string, J>)
    requires Carries(r, ref, props)
    ensures SmoothFor(r, ref, Obj(props))
  {
    HasSmooth(r, EntryPath(ref), false, PlainPatch(props));
    if SubPatch(props, "cost").Some? { HasSmooth(r, CostPath(ref), true, SubPatch(props, "cost").value); }
    if SubPatch(props, "params").Some? { HasSmooth(r, ParamsPath(ref), false, SubPatch(props, "params").value); }
  }

  lemma CarriedSmooth(t: J, k: Overlay, r: J)
    requires AllKnown(t, k) && CarriesAll(t, k, r)
    ensures OverlaySmooth(r, k)
  {
    forall ref | ref in k ensures SmoothFor(r, ref, k[ref]) { CarriesSmooth(r, ref, k[ref].fields); }
  }

  predicate BlankedAt(x: J, y: J) {
    && x.Obj? && y.Obj? && SameKeys(x.fields, y.fields) && PropsMetBy(y.fields, y.fields)
    && Sets(x, "cost") == Sets(y, "cost") && Sets(x, "params") == Sets(y, "params")
  }

  lemma BlankFacts(t: J, k: Overlay)
    requires AllKnown(t, k)
    ensures Known(t, k) == k && Blank(k).Keys == k.Keys && SameSets(k, Blank(k)) && OverlayMetBy(Blank(k), Blank(k))
    ensures forall ref | ref in k :: Blank(k)[ref].Obj? && SameKeys(k[ref].fields, Blank(k)[ref].fields)
  {
    assert Known(t, k) == k;
    forall ref | ref in k
      ensures BlankedAt(k[ref], Blank(k)[ref])
    {
      BlankedKeys(k[ref].fields);
    }
  }

  lemma SameSetsReady(t: J, r: J, a: Overlay, b: Overlay)
    requires OverlayReady(t, a) && OverlaySmooth(r, a) && SameSets(a, b)
    ensures OverlayReady(t, b) && OverlaySmooth(r, b)
  {
    forall ref | ref in b ensures TemplateReady(t, ref, b[ref]) && SmoothFor(r, ref, b[ref]) {
      SameReady(t, ref, a[ref], b[ref]);
      SameReady(r, ref, a[ref], b[ref]);
    }
  }

  /** Both sides stay ready for an overlay when one that sets the same is applied. */
  lemma ReadyAgain(t: J, r: J, a: Overlay, b: Overlay)
    requires OverlayReady(t, a) && OverlaySmooth(r, a) && SameSets(a, b)
    ensures OverlayReady(ApplyAll(t, b, b.Keys), a) && OverlaySmooth(ApplyAll(r, b, b.Keys), a)
  {
    SameSetsReady(t, r, a, b);
    forall ref | ref in a
      ensures TemplateReady(ApplyAll(t, b, b.Keys), ref, a[ref]) && SmoothFor(ApplyAll(r, b, b.Keys), ref, a[ref])
    {
      StillReady(t, b, b.Keys, ref, a[ref]);
      StillSmooth(r, b, b.Keys, ref, a[ref]);
    }
  }

  lemma BlankBoth(t: J, r: J, k: Overlay)
    requires AllKnown(t, k) && OverlaySmooth(r, k) && Conforms(t, r)
    ensures RestMet(t, k, r)
  {
    var blank := Blank(k);
    BlankFacts(t, k);
    SameSetsReady(t, r, k, blank);
    AllConform(t, r, blank, blank, blank.Keys);
  }

  /** A configuration that meets the template under an overlay meets the rest. */
  lemma ConformingMeetsRest(t: J, k: Overlay, r: J)
    requires AllKnown(t, k) && CarriesAll(t, k, r) && Conforms(ApplyAll(t, k, k.Keys), r)
    ensures RestMet(t, k, r)
  {
    var blank := Blank(k);
    var t1 := ApplyAll(t, k, k.Keys);
    BlankFacts(t, k);
    CarriedSmooth(t, k, r);
    forall ref | ref in k ensures TemplateReady(t1, ref, k[ref]) { StillReady(t, k, k.Keys, ref, k[ref]); }
    SameSetsReady(t1, r, k, blank);
    AllConform(t1, r, blank, blank, blank.Keys);
    AllAgain(t, k, blank);
  }

  lemma MirrorFacts(t: J, k: Overlay, r: J)
    requires AllKnown(t, k) && CarriesAll(t, k, r)
    ensures OverlayMetBy(k, Mirror(r, k)) && ApplyAll(r, Mirror(r, k), k.Keys) == r
    ensures forall ref | ref in k :: SameKeys(k[ref].fields, Mirror(r, k)[ref].fields)
  {
    var m := Mirror(r, k);
    forall ref | ref in k
      ensures PropsMetBy(k[ref].fields, m[ref].fields) && ApplyRef(r, ref, m[ref]) == r
      ensures SameKeys(k[ref].fields, m[ref].fields)
    {
      MirroredMeets(r, ref, k[ref].fields);
      MirroredIsOwn(r, ref, k[ref].fields);
    }
    AllOwn(r, m, m.Keys);
  }

  lemma SameKeysThrough(x: map<string, J>, y: map<string, J>, z: map<string, J>)
    requires SameKeys(x, y) && SameKeys(x, z)
    ensures SameKeys(y, z)
  {
  }

  lemma MirrorAfterBlank(t: J, k: Overlay, r: J)
    requires AllKnown(t, k) && CarriesAll(t, k, r)
    ensures ApplyAll(ApplyAll(t, Blank(k), k.Keys), k, k.Keys) == ApplyAll(t, k, k.Keys)
    ensures ApplyAll(ApplyAll(r, Blank(k), k.Keys), Mirror(r, k), k.Keys) == r
  {
    var blank, m := Blank(k), Mirror(r, k);
    BlankFacts(t, k);
    MirrorFacts(t, k, r);
    forall ref | ref in k
      ensures SameKeys(blank[ref].fields, k[ref].fields) && SameKeys(blank[ref].fields, m[ref].fields)
    {
      SameKeysThrough(k[ref].fields, blank[ref].fields, k[ref].fields);
      SameKeysThrough(k[ref].fields, blank[ref].fields, m[ref].fields);
    }
    AllAgain(t, blank, k);
    AllAgain(r, blank, m);
  }

  /** And one that meets the rest and carries the overlay meets the template under it. */
  lemma RestAndCarriedConform(t: J, k: Overlay, r: J)
    requires AllKnown(t, k) && CarriesAll(t, k, r) && RestMet(t, k, r)
    ensures Conforms(ApplyAll(t, k, k.Keys), r)
  {
    var blank, m := Blank(k), Mirror(r, k);
    BlankFacts(t, k);
    CarriedSmooth(t, k, r);
    ReadyAgain(t, r, k, blank);
    MirrorFacts(t, k, r);
    AllConform(ApplyAll(t, blank, k.Keys), ApplyAll(r, blank, k.Keys), k, m, k.Keys);
    MirrorAfterBlank(t, k, r);
  }

  lemma SmoothApplies(c: J, o: Overlay)
    requires OverlaySmooth(c, o)
    ensures Apply(c, o) == Some(ApplyAll(c, o, o.Keys))
  {
    forall ref | ref in o ensures c.Obj? && !RootRaises(c) && !RefRaises(c, ref, o[ref]) {
      SmoothRaisesNothing(c, ref, o[ref]);
    }
  }

  lemma ConformingCarries(t: J, k: Overlay, r: J)
    requires t.Obj? && AllKnown(t, k) && Conforms(ApplyAll(t, k, k.Keys), r)
    ensures CarriesAll(t, k, r)
  {
    SmoothApplies(t, k);
    forall ref | ref in k ensures Carries(r, ref, k[ref].fields) { AskedMustBeCarried(t, k, r, ref); }
  }

  /** The doctor's check of any configuration: what is overridden is carried, and the rest is met. */
  lemma CheckTakenApart(t: J, k: Overlay, r: J)
    requires t.Obj? && AllKnown(t, k)
    ensures Conforms(ApplyAll(t, k, k.Keys), r) <==> CarriesAll(t, k, r) && RestMet(t, k, r)
  {
    if Conforms(ApplyAll(t, k, k.Keys), r) {
      ConformingCarries(t, k, r);
      ConformingMeetsRest(t, k, r);
    }
    if CarriesAll(t, k, r) && RestMet(t, k, r) { RestAndCarriedConform(t, k, r); }
  }

  // ---------------------------------------------------------------------------------------
  // Overlays that name other models too
  // ---------------------------------------------------------------------------------------

  lemma {:induction false} NothingKnown(t: J, o: Overlay, refs: set<string>)
    requires ProperRefs(o) && refs <= o.Keys && forall ref | ref in refs :: !(Registered(t, ref) && o[ref].Obj?)
    ensures ApplyAll(t, o, refs) == t
  {
    forall ref | ref in refs ensures ApplyRef(t, ref, o[ref]) == t {
    }
    AllOwn(t, o, refs);
  }

  /** On the template only the overrides of its own models count. */
  lemma KnownSuffices(t: J, o: Overlay)
    requires ProperRefs(o)
    ensures var k := Known(t, o); ApplyAll(t, o, o.Keys) == ApplyAll(t, k, k.Keys)
  {
    var k := Known(t, o);
    var rest := o.Keys - k.Keys;
    assert rest + k.Keys == o.Keys;
    ApplyAllSplit(t, o, rest, k.Keys);
    NothingKnown(t, o, rest);
    ApplyAllAgree(t, o, k, k.Keys);
  }

  lemma KnownIsKnown(t: J, o: Overlay)
    requires OverlayReady(t, o)
    ensures AllKnown(t, Known(t, o)) && Known(t, Known(t, o)) == Known(t, o)
  {
  }

  lemma KnownAlike(t: J, o: Overlay, r: J)
    requires OverlayReady(t, o)
    ensures CarriesAll(t, o, r) <==> CarriesAll(t, Known(t, o), r)
    ensures RestMet(t, o, r) <==> RestMet(t, Known(t, o), r)
  {
    KnownIsKnown(t, o);
    SameCarried(t, o, r);
  }

  lemma SameCarried(t: J, o: Overlay, r: J)
    ensures CarriesAll(t, o, r) <==> CarriesAll(t, Known(t, o), r)
  {
    var k := Known(t, o);
    if CarriesAll(t, k, r) {
      forall ref | ref in o && Registered(t, ref) && o[ref].Obj? ensures Carries(r, ref, o[ref].fields) {
        assert ref in k && k[ref] == o[ref];
      }
    }
  }

  /** The doctor's check of any configuration under any overlay file. */
  lemma DoctorAsks(t: J, o: Overlay, r: J)
    requires t.Obj? && OverlayReady(t, o)
    ensures Conforms(ApplyAll(t, o, o.Keys), r) <==> CarriesAll(t, o, r) && RestMet(t, o, r)
  {
    KnownIsKnown(t, o);
    KnownSuffices(t, o);
    KnownAlike(t, o, r);
    CheckTakenApart(t, Known(t, o), r);
  }
}
