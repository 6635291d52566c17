/** The activity record shared by the proxy, its equality modulo nil and zero, and its deep copy. */
module Activities {
  import opened Wrappers

  datatype Timestamps = Timestamps(start: int, end: int)

  datatype Assets = Assets(largeImage: string, largeText: string, smallImage: string, smallText: string)

  datatype Party = Party(id: string, current: int, max: int)

  datatype Button = Button(caption: string, url: string)

  /** The value of an activity: None stands for a nil pointer or a nil slice. */
  datatype Activity = Activity(
    details: string,
    state: string,
    timestamps: Option<Timestamps>,
    assets: Option<Assets>,
    party: Option<Party>,
    buttons: Option<seq<Button>>,
    kind: int)

  const PLAYING := 0
  const COMPETING := 5

  /** The zero value, types.Activity{}. */
  const ZERO := Activity("", "", None, None, None, None, PLAYING)

  const ZERO_TIMESTAMPS := Timestamps(0, 0)
  const ZERO_ASSETS := Assets("", "", "", "")
  const ZERO_PARTY := Party("", 0, 0)

  predicate IsEmpty(a: Activity) {
    && a.details == ""
    && a.state == ""
    && a.timestamps.None?
    && a.assets.None?
    && a.party.None?
    && |ButtonList(a)| == 0
    && a.kind == PLAYING
  }

  // ---------- Equality, with the branches of the source ----------

  predicate TimestampsEqual(a: Option<Timestamps>, b: Option<Timestamps>) {
    if a.None? && b.None? then true
    else if a.None? then b.value.start == 0 && b.value.end == 0
    else if b.None? then a.value.start == 0 && a.value.end == 0
    else a.value.start == b.value.start && a.value.end == b.value.end
  }

  predicate NoAssets(a: Assets) {
    a.largeImage == "" && a.largeText == "" && a.smallImage == "" && a.smallText == ""
  }

  predicate AssetsEqual(a: Option<Assets>, b: Option<Assets>) {
    if a.None? && b.None? then true
    else if a.None? then NoAssets(b.value)
    else if b.None? then NoAssets(a.value)
    else
      && a.value.largeImage == b.value.largeImage
      && a.value.largeText == b.value.largeText
      && a.value.smallImage == b.value.smallImage
      && a.value.smallText == b.value.smallText
  }

  predicate PartyEqual(a: Option<Party>, b: Option<Party>) {
    if a.None? && b.None? then true
    else if a.None? then b.value.id == "" && b.value.current == 0 && b.value.max == 0
    else if b.None? then a.value.id == "" && a.value.current == 0 && a.value.max == 0
    else a.value.id == b.value.id && a.value.current == b.value.current && a.value.max == b.value.max
  }

  /** A nil slice ranges like an empty one. */
  function ButtonList(a: Activity): seq<Button> {
    if a.buttons.None? then [] else a.buttons.value
  }

  predicate Equals(a: Activity, b: Activity) {
    && a.details == b.details && a.state == b.state && a.kind == b.kind
    && TimestampsEqual(a.timestamps, b.timestamps)
    && AssetsEqual(a.assets, b.assets)
    && PartyEqual(a.party, b.party)
    && |ButtonList(a)| == |ButtonList(b)|
    && forall i :: 0 <= i < |ButtonList(a)| ==>
         && ButtonList(a)[i].caption == ButtonList(b)[i].caption
         && ButtonList(a)[i].url == ButtonList(b)[i].url
  }

  // ---------- Normal forms ----------

  function OrZero<T>(x: Option<T>, zero: T): T {
    if x.None? then zero else x.value
  }

  /** The normal form: every nil nested value is replaced by the all-zero one. */
  function Normal(a: Activity): Activity {
    a.(timestamps := Some(OrZero(a.timestamps, ZERO_TIMESTAMPS)),
       assets := Some(OrZero(a.assets, ZERO_ASSETS)),
       party := Some(OrZero(a.party, ZERO_PARTY)),
       buttons := Some(ButtonList(a)))
  }

  /** An activity that stores nothing empty: what the parser produces. */
  predicate Canonical(a: Activity) {
    && a.timestamps != Some(ZERO_TIMESTAMPS)
    && a.assets != Some(ZERO_ASSETS)
    && a.party != Some(ZERO_PARTY)
    && a.buttons != Some([])
  }

  /** The compact form: every all-zero nested value is replaced by nil. */
  function Compact(a: Activity): (r: Activity)
    ensures Canonical(r) && Equals(a, r)
  {
    a.(timestamps := if a.timestamps == Some(ZERO_TIMESTAMPS) then None else a.timestamps,
       assets := if a.assets == Some(ZERO_ASSETS) then None else a.assets,
       party := if a.party == Some(ZERO_PARTY) then None else a.party,
       buttons := if a.buttons == Some([]) then None else a.buttons)
  }

  /** Equality of two activities is exactly equality of their normal forms. */
  lemma EqualsIsNormalEquality(a: Activity, b: Activity)
    ensures Equals(a, b) <==> Normal(a) == Normal(b)
  {
    if Equals(a, b) {
      var xs, ys := ButtonList(a), ButtonList(b);
      forall i | 0 <= i < |xs| ensures xs[i] == ys[i] {
        assert xs[i].caption == ys[i].caption && xs[i].url == ys[i].url;
      }
      assert xs == ys;
    }
  }

  /** Equality is an equivalence relation. */
  lemma EqualsIsEquivalence(a: Activity, b: Activity, c: Activity)
    ensures Equals(a, a)
    ensures Equals(a, b) ==> Equals(b, a)
    ensures Equals(a, b) && Equals(b, c) ==> Equals(a, c)
  {
    EqualsIsNormalEquality(a, b);
    EqualsIsNormalEquality(b, a);
    EqualsIsNormalEquality(b, c);
    EqualsIsNormalEquality(a, c);
  }

  /** On canonical activities equality is structural, and every class has one canonical member. */
  lemma CanonicalEquality(a: Activity, b: Activity)
    ensures Canonical(a) && Canonical(b) ==> (Equals(a, b) <==> a == b)
    ensures Equals(a, b) <==> Compact(a) == Compact(b)
  {
    EqualsIsNormalEquality(a, b);
    EqualsIsNormalEquality(Compact(a), Compact(b));
    EqualsIsEquivalence(a, Compact(a), Compact(b));
    EqualsIsEquivalence(Compact(a), a, b);
    EqualsIsEquivalence(Compact(a), b, Compact(b));
    EqualsIsEquivalence(a, Compact(b), b);
    EqualsIsEquivalence(b, Compact(b), b);
  }

  /**
    IsEmpty is finer than equality with the zero activity: it also asks for nil pointers.
    The two agree on every canonical activity.
   */
  lemma IsEmptyIsEqualToZero(a: Activity)
    ensures IsEmpty(a) <==> Equals(a, ZERO) && a.timestamps.None? && a.assets.None? && a.party.None?
    ensures Canonical(a) ==> (IsEmpty(a) <==> Equals(a, ZERO))
    ensures (IsEmpty(a) <==> Equals(a, ZERO))
         <==> !(Equals(a, ZERO) && (a.timestamps.Some? || a.assets.Some? || a.party.Some?))
  {
    EqualsIsNormalEquality(a, ZERO);
  }

  // ---------- The record in memory ----------

  /** The target of a pointer field. */
  class Cell<T> {
    var value: T

    constructor (value: T)
      ensures this.value == value
    {
      this.value := value;
    }
  }

  /** An activity as Go stores it: three pointers and a slice, which copies may share. */
  datatype ActivityRef = ActivityRef(
    details: string,
    state: string,
    timestamps: Cell?<Timestamps>,
    assets: Cell?<Assets>,
    party: Cell?<Party>,
    buttons: array?<Button>,
    kind: int)
  {
    ghost function Footprint(): set<object> {
      (if timestamps == null then {} else {timestamps as object})
      + (if assets == null then {} else {assets as object})
      + (if party == null then {} else {party as object})
      + (if buttons == null then {} else {buttons as object})
    }

    ghost function Value(): Activity
      reads Footprint()
    {
      Activity(
        details,
        state,
        if timestamps == null then None else Some(timestamps.value),
        if assets == null then None else Some(assets.value),
        if party == null then None else Some(party.value),
        if buttons == null then None else Some(buttons[..]),
        kind)
    }

    /** Deep copy: same value, and no memory shared with the original. */
    method Clone() returns (out: ActivityRef)
      ensures out.Value() == Value()
      ensures out.details == details && out.state == state && out.kind == kind
      ensures if timestamps == null then out.timestamps == null
              else out.timestamps != null && out.timestamps.value == timestamps.value
      ensures if assets == null then out.assets == null
              else out.assets != null && out.assets.value == assets.value
      ensures if party == null then out.party == null
              else out.party != null && out.party.value == party.value
      ensures if buttons == null then out.buttons == null
              else out.buttons != null && out.buttons[..] == buttons[..]
      ensures fresh(out.Footprint())
    {
      var ts: Cell?<Timestamps> := null;
      var as_: Cell?<Assets> := null;
      var pt: Cell?<Party> := null;
      var bs: array?<Button> := null;
      if timestamps != null {
        ts := new Cell(timestamps.value);
      }
      if assets != null {
        as_ := new Cell(assets.value);
      }
      if party != null {
        pt := new Cell(party.value);
      }
      if buttons != null {
        var source := buttons;
        bs := new Button[source.Length](_ => Button("", ""));
        for i := 0 to source.Length
          modifies bs
          invariant bs.Length == source.Length
          invariant bs[..i] == source[..i]
        {
          bs[i] := source[i];
        }
        assert bs[..] == source[..];
      }
      out := ActivityRef(details, state, ts, as_, pt, bs, kind);
      assert out.Value().buttons == Value().buttons;
    }

    /** The comparison loop over two records in memory decides equality of their normal forms. */
    method EqualTo(other: ActivityRef) returns (equal: bool)
      ensures equal <==> Normal(Value()) == Normal(other.Value())
      ensures equal <==> Equals(Value(), other.Value())
    {
      ghost var a, b := Value(), other.Value();
      EqualsIsNormalEquality(a, b);
      if details != other.details || state != other.state || kind != other.kind {
        return false;
      }
      var ts1 := if timestamps == null then None else Some(timestamps.value);
      var ts2 := if other.timestamps == null then None else Some(other.timestamps.value);
      if !TimestampsEqual(ts1, ts2) {
        return false;
      }
      var as1 := if assets == null then None else Some(assets.value);
      var as2 := if other.assets == null then None else Some(other.assets.value);
      if !AssetsEqual(as1, as2) {
        return false;
      }
      var pt1 := if party == null then None else Some(party.value);
      var pt2 := if other.party == null then None else Some(other.party.value);
      if !PartyEqual(pt1, pt2) {
        return false;
      }
      var xs := if buttons == null then [] else buttons[..];
      var ys := if other.buttons == null then [] else other.buttons[..];
      assert xs == ButtonList(a) && ys == ButtonList(b);
      if |xs| != |ys| {
        return false;
      }
      for i := 0 to |xs|
        invariant forall j :: 0 <= j < i ==> xs[j].caption == ys[j].caption && xs[j].url == ys[j].url
      {
        if xs[i].caption != ys[i].caption || xs[i].url != ys[i].url {
          return false;
        }
      }
      return true;
    }
  }
}
