/** Normalisation of a gopresence activity into the shared record. */
module Parser {
  import opened Wrappers
  import opened Activities

  const MAX_ACTIVITY_BUTTONS := 2

  datatype ParseError =
    | NilActivity
    | UnknownType(kind: int)
    | TooManyButtons(count: nat)
    | LabelRequired(index: nat)
    | UrlRequired(index: nat)

  predicate KnownType(kind: int) {
    PLAYING <= kind <= COMPETING
  }

  function ParseTimestamps(src: Option<Timestamps>): Option<Timestamps> {
    if src.None? || (src.value.start == 0 && src.value.end == 0) then None
    else Some(Timestamps(src.value.start, src.value.end))
  }

  function ParseAssets(src: Option<Assets>): Option<Assets> {
    if src.None? || NoAssets(src.value) then None else src
  }

  function ParseParty(src: Option<Party>): Option<Party> {
    if src.None? || (src.value.id == "" && src.value.current == 0 && src.value.max == 0) then None
    else Some(Party(src.value.id, src.value.current, src.value.max))
  }

  /** What is wrong with a button; the label is looked at first. */
  function ButtonFault(b: Button, index: nat): Option<ParseError> {
    if b.caption == "" then Some(LabelRequired(index))
    else if b.url == "" then Some(UrlRequired(index))
    else None
  }

  /** The first fault of a button list from `index` on. */
  function FirstFault(src: seq<Button>, index: nat): (r: Option<ParseError>)
    requires index <= |src|
    ensures r.None? <==> forall i :: index <= i < |src| ==> src[i].caption != "" && src[i].url != ""
    decreases |src| - index
  {
    if index == |src| then None
    else if ButtonFault(src[index], index).Some? then ButtonFault(src[index], index)
    else FirstFault(src, index + 1)
  }

  function ButtonsResult(src: seq<Button>): Result<seq<Button>, ParseError> {
    if |src| > MAX_ACTIVITY_BUTTONS then Failure(TooManyButtons(|src|))
    else if FirstFault(src, 0).Some? then Failure(FirstFault(src, 0).value)
    else Success(src)
  }

  /** The append loop over the buttons: all of them in order, or the first fault. */
  method ParseButtons(src: seq<Button>) returns (r: Result<seq<Button>, ParseError>)
    ensures r == ButtonsResult(src)
    ensures r.Success? <==>
            |src| <= MAX_ACTIVITY_BUTTONS && forall i :: 0 <= i < |src| ==> src[i].caption != "" && src[i].url != ""
    ensures r.Success? ==> r.value == src
  {
    if |src| == 0 {
      assert src == [];
      return Success([]);
    }
    if |src| > MAX_ACTIVITY_BUTTONS {
      return Failure(TooManyButtons(|src|));
    }
    var dst: seq<Button> := [];
    for i := 0 to |src|
      invariant dst == src[..i]
      invariant FirstFault(src, 0) == FirstFault(src, i)
    {
      var btn := src[i];
      if btn.caption == "" {
        return Failure(LabelRequired(i));
      }
      if btn.url == "" {
        return Failure(UrlRequired(i));
      }
      dst := dst + [Button(btn.caption, btn.url)];
    }
    assert dst == src;
    return Success(dst);
  }

  /** The parser as a function, with the order in which the source reports faults. */
  function Parsed(src: Option<Activity>): Result<Activity, ParseError> {
    if src.None? then Failure(NilActivity)
    else if !KnownType(src.value.kind) then Failure(UnknownType(src.value.kind))
    else
      var buttons := ButtonsResult(ButtonList(src.value));
      if buttons.Failure? then Failure(buttons.error)
      else Success(src.value.(
                   timestamps := ParseTimestamps(src.value.timestamps),
                   assets := ParseAssets(src.value.assets),
                   party := ParseParty(src.value.party),
                   buttons := if |buttons.value| > 0 then Some(buttons.value) else None))
  }

  method ParseActivity(src: Option<Activity>) returns (r: Result<Activity, ParseError>)
    ensures r == Parsed(src)
  {
    if src.None? {
      return Failure(NilActivity);
    }
    var s := src.value;
    if !KnownType(s.kind) {
      return Failure(UnknownType(s.kind));
    }
    var dst := ZERO.(details := s.details, state := s.state, kind := s.kind);
    var ts := ParseTimestamps(s.timestamps);
    if ts.Some? {
      dst := dst.(timestamps := ts);
    }
    var assets := ParseAssets(s.assets);
    if assets.Some? {
      dst := dst.(assets := assets);
    }
    var party := ParseParty(s.party);
    if party.Some? {
      dst := dst.(party := party);
    }
    var buttons := ParseButtons(ButtonList(s));
    if buttons.Failure? {
      return Failure(buttons.error);
    }
    if |buttons.value| > 0 {
      dst := dst.(buttons := Some(buttons.value));
    }
    return Success(dst);
  }

  /**
    A parsed activity is canonical, means the same as its source, parses to itself, and is the
    compact form of its source; so on parsed activities equality is structural and IsEmpty is
    equality with the zero activity.
   */
  lemma ParsedIsCanonical(src: Activity)
    requires Parsed(Some(src)).Success?
    ensures var dst := Parsed(Some(src)).value;
            && Canonical(dst)
            && Equals(dst, src)
            && dst == Compact(src)
            && Parsed(Some(dst)) == Success(dst)
            && (IsEmpty(dst) <==> Equals(src, ZERO))
  {
    var dst := Parsed(Some(src)).value;
    assert ButtonList(dst) == ButtonList(src);
    EqualsIsNormalEquality(dst, src);
    EqualsIsEquivalence(src, dst, ZERO);
    EqualsIsEquivalence(dst, src, ZERO);
    IsEmptyIsEqualToZero(dst);
  }

  /** Two sources that parse are equal exactly when they parse to the same record. */
  lemma ParsingDecidesEquality(a: Activity, b: Activity)
    requires Parsed(Some(a)).Success? && Parsed(Some(b)).Success?
    ensures Equals(a, b) <==> Parsed(Some(a)) == Parsed(Some(b))
  {
    ParsedIsCanonical(a);
    ParsedIsCanonical(b);
    CanonicalEquality(a, b);
  }

  /** Every button before the i-th has a label and a URL. */
  predicate CompleteBefore(buttons: seq<Button>, i: nat)
    requires i <= |buttons|
  {
    forall j :: 0 <= j < i ==> buttons[j].caption != "" && buttons[j].url != ""
  }

  /** Which fault is reported for an activity that does not parse: the first in the order of the checks. */
  lemma FaultsExactly(src: Option<Activity>)
    ensures var r := Parsed(src);
            && (r == Failure(NilActivity) <==> src.None?)
            && (src.Some? ==>
                  var (kind, buttons) := (src.value.kind, ButtonList(src.value));
                  var known := 0 <= kind <= 5;
                  && (!known ==> r == Failure(UnknownType(kind)))
                  && (known && |buttons| > 2 ==> r == Failure(TooManyButtons(|buttons|)))
                  && (known && |buttons| <= 2 ==>
                        forall i :: 0 <= i < |buttons| && CompleteBefore(buttons, i) ==>
                          && (buttons[i].caption == "" ==> r == Failure(LabelRequired(i)))
                          && (buttons[i].caption != "" && buttons[i].url == "" ==> r == Failure(UrlRequired(i)))))
  {
    if src.Some? {
      var buttons := ButtonList(src.value);
      forall i | 0 <= i < |buttons| && CompleteBefore(buttons, i)
        ensures (buttons[i].caption == "" || buttons[i].url == "") ==>
                  FirstFault(buttons, 0) == ButtonFault(buttons[i], i)
      {
        FirstFaultAt(buttons, 0, i);
      }
    }
  }

  lemma {:induction false} FirstFaultAt(src: seq<Button>, index: nat, i: nat)
    requires index <= i < |src|
    requires CompleteBefore(src, i)
    ensures ButtonFault(src[i], i).Some? ==> FirstFault(src, index) == ButtonFault(src[i], i)
    decreases i - index
  {
    if index < i {
      FirstFaultAt(src, index + 1, i);
    }
  }

  /** Exactly which activities parse. */
  lemma ParsesExactlyWhenValid(src: Option<Activity>)
    ensures Parsed(src).Success? <==>
            && src.Some?
            && src.value.kind in {0, 1, 2, 3, 4, 5}
            && |ButtonList(src.value)| <= 2
            && forall b :: b in ButtonList(src.value) ==> b.caption != "" && b.url != ""
  {
    if src.Some? {
      var bs := ButtonList(src.value);
      assert FirstFault(bs, 0).None? <==> forall i :: 0 <= i < |bs| ==> bs[i].caption != "" && bs[i].url != "";
      if FirstFault(bs, 0).Some? {
        var i :| 0 <= i < |bs| && !(bs[i].caption != "" && bs[i].url != "");
        assert bs[i] in bs;
      }
    }
  }
}
