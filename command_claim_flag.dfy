/** CommandClaimFlag: the /cf command. Lists a claim's flags as rows that
    merge the DEFAULT, CLAIM and OVERRIDE layers, toggles a layer's value
    from a clickable cell, and sets a flag directly. The Sponge Text a row
    is made of is modelled as a sequence of cells; the permission service is
    modelled by the maps it returns, and CommandHelper's writes by a record
    of their arguments. */
module CommandClaimFlag {
  import opened JavaLang
  import opened ClaimModel

  /** CommandClaimFlag.FlagType. */
  datatype FlagType = DEFAULT | CLAIM | OVERRIDE | GROUP | PLAYER

  /** type.name().toLowerCase(). */
  function TypeNameLower(t: FlagType): string
  {
    match t
    case DEFAULT => "default"
    case CLAIM => "claim"
    case OVERRIDE => "override"
    case GROUP => "group"
    case PLAYER => "player"
  }

  // ---------------------------------------------------------------------
  // Toggle (createFlagConsumer)

  /** The table each layer's toggle applies to the value it was shown. */
  function Toggle(t: Tristate): (r: Tristate)
    ensures r != t
  {
    if t == TRUE then FALSE
    else if t == UNDEFINED then TRUE
    else UNDEFINED
  }

  /** Toggling is a 3-cycle: FALSE goes back to TRUE only through UNDEFINED. */
  lemma ToggleIsThreeCycle(t: Tristate)
    ensures Toggle(Toggle(Toggle(t))) == t
    ensures Toggle(Toggle(t)) != t
    ensures Toggle(t) == TRUE <==> t == UNDEFINED
  {
  }

  /** The arguments a toggle callback captures. */
  datatype FlagConsumer = FlagConsumer(
    claimId: Uuid, flag: string, value: Tristate, source: string, flagType: FlagType)

  /** The calls the command makes into CommandHelper, by their arguments
      (the subject is always GLOBAL_SUBJECT and the subject target "ALL"). */
  datatype FlagWrite =
    | ApplyFlagPermission(
        claimId: Uuid, flag: string, source: string, target: string,
        value: Tristate, context: Option<string>, flagType: FlagType)
    | AddFlagPermission(
        claimId: Uuid, flag: string, givenSource: Option<string>, givenTarget: Option<string>,
        value: Tristate, context: Option<string>)

  /** What running a toggle callback writes. */
  function RunConsumer(c: FlagConsumer): (w: Option<FlagWrite>)
    ensures w.Some? <==> c.flagType == DEFAULT || c.flagType == CLAIM || c.flagType == OVERRIDE
    ensures w.Some? ==> w.value.ApplyFlagPermission?
    ensures w.Some? ==> w.value.value == Toggle(c.value) && w.value.target == "any"
    ensures w.Some? ==> w.value.flag == c.flag && w.value.source == c.source
    ensures w.Some? ==> w.value.claimId == c.claimId && w.value.flagType == c.flagType
    ensures c.flagType == DEFAULT ==> w.value.context == Some("default")
    ensures c.flagType == CLAIM ==> w.value.context == None
    ensures c.flagType == OVERRIDE ==> w.value.context == Some("forced")
  {
    match c.flagType
    case DEFAULT =>
      Some(ApplyFlagPermission(c.claimId, c.flag, c.source, "any", Toggle(c.value), Some("default"), DEFAULT))
    case CLAIM =>
      Some(ApplyFlagPermission(c.claimId, c.flag, c.source, "any", Toggle(c.value), None, CLAIM))
    case OVERRIDE =>
      Some(ApplyFlagPermission(c.claimId, c.flag, c.source, "any", Toggle(c.value), Some("forced"), OVERRIDE))
    case GROUP => None
    case PLAYER => None
  }

  // ---------------------------------------------------------------------
  // Edit gating (getClickableText)

  /** A value shown in a row: its hover text and, when editing is allowed,
      the toggle callback attached to a click. */
  datatype ClickableText = ClickableText(
    flagType: FlagType, value: Tristate, hover: string, onClick: Option<FlagConsumer>)

  const NoDefaultsPermission: string := "You do not have permission to change flag defaults."
  const ForcedByAdmin: string := "This flag has been forced by an admin and cannot be changed."

  function ToggleHint(t: FlagType): string
  {
    "Click here to toggle " + TypeNameLower(t) + " value."
  }

  /** `denyReason` is what claim.allowEdit answers for the source when it is
      a player. The hover text is set in the order of the checks, so a
      player's deny reason replaces the missing-defaults-permission text. */
  function GetClickableText(
    src: CommandSource, claimId: Uuid, denyReason: Option<string>,
    flag: string, value: Tristate, source: string, t: FlagType): (r: ClickableText)
    ensures r.flagType == t && r.value == value
    ensures r.onClick.Some? <==>
      && (t == DEFAULT ==> src.HasPermission(ManageFlagDefaults))
      && (t == OVERRIDE ==> src.HasPermission(ManageFlagOverrides))
      && !(src.Player? && denyReason.Some?)
    ensures r.onClick.Some? ==> r.onClick.value == FlagConsumer(claimId, flag, value, source, t)
    ensures t == OVERRIDE && !src.HasPermission(ManageFlagOverrides) ==> r.hover == ForcedByAdmin
    ensures !(t == OVERRIDE && !src.HasPermission(ManageFlagOverrides)) && src.Player? && denyReason.Some?
      ==> r.hover == denyReason.value
    ensures r.onClick.Some? ==> r.hover == ToggleHint(t)
    ensures r.onClick.None? && t == DEFAULT && !(src.Player? && denyReason.Some?)
      ==> r.hover == NoDefaultsPermission
  {
    var (hover1, allowed1) :=
      if t == DEFAULT && !src.HasPermission(ManageFlagDefaults) then (NoDefaultsPermission, false)
      else (ToggleHint(t), true);
    var (hover2, allowed2) :=
      if t == OVERRIDE && !src.HasPermission(ManageFlagOverrides) then (ForcedByAdmin, false)
      else if src.Player? && denyReason.Some? then (denyReason.value, false)
      else (hover1, allowed1);
    ClickableText(t, value, hover2,
      if allowed2 then Some(FlagConsumer(claimId, flag, value, source, t)) else None)
  }

  /** An OVERRIDE cell shown to a source without the manage-overrides
      permission never consults the claim's own edit check. */
  lemma OverrideWithoutPermissionIgnoresClaim(
    src: CommandSource, claimId: Uuid, d1: Option<string>, d2: Option<string>,
    flag: string, value: Tristate, source: string)
    requires !src.HasPermission(ManageFlagOverrides)
    ensures GetClickableText(src, claimId, d1, flag, value, source, OVERRIDE)
         == GetClickableText(src, claimId, d2, flag, value, source, OVERRIDE)
  {
  }

  /** Clicking a cell writes the next value of the toggle cycle at the
      cell's own layer. */
  lemma ClickWritesToggledValue(
    src: CommandSource, claimId: Uuid, denyReason: Option<string>,
    flag: string, value: Tristate, source: string, t: FlagType)
    requires t == DEFAULT || t == CLAIM || t == OVERRIDE
    requires GetClickableText(src, claimId, denyReason, flag, value, source, t).onClick.Some?
    ensures
      var w := RunConsumer(GetClickableText(src, claimId, denyReason, flag, value, source, t).onClick.value);
      w.Some? && w.value.flagType == t && w.value.value == Toggle(value) && w.value.flag == flag
  {
  }

  // ---------------------------------------------------------------------
  // Context selection

  datatype ListingContexts = ListingContexts(
    defaults: set<Context>, overrides: set<Context>, source: string)

  /** The contexts the listing queries: the claim type's default and override
      contexts plus the world (the wilderness has no override contexts, and
      then the world is not added to them), the registered custom context
      named by the source added to the defaults only, and "any" for a
      missing source. */
  function SelectContexts(
    claim: Claim, world: Context, source: Option<string>, custom: map<string, Context>): (r: ListingContexts)
    ensures world in r.defaults
    ensures var extra := if source.Some? && source.value in custom then {custom[source.value]} else {};
      && (claim.IsAdminClaim() ==>
            r.defaults == {AdminDefault, world} + extra && r.overrides == {AdminOverride, world})
      && (!claim.IsAdminClaim() && (claim.IsBasicClaim() || claim.IsSubdivision()) ==>
            r.defaults == {BasicDefault, world} + extra && r.overrides == {BasicOverride, world})
      && (!claim.IsAdminClaim() && !claim.IsBasicClaim() && !claim.IsSubdivision() ==>
            r.defaults == {WildernessDefault, world} + extra && r.overrides == {})
    ensures r.source == if source.Some? then source.value else "any"
  {
    var (typeDefault, typeOverride) :=
      if claim.IsAdminClaim() then ({AdminDefault}, {AdminOverride})
      else if claim.IsBasicClaim() || claim.IsSubdivision() then ({BasicDefault}, {BasicOverride})
      else ({WildernessDefault}, {});
    var contexts := typeDefault + {world};
    var overrideContexts := if typeOverride != {} then typeOverride + {world} else typeOverride;
    match source
    case Some(s) =>
      ListingContexts(if s in custom then contexts + {custom[s]} else contexts, overrideContexts, s)
    case None =>
      ListingContexts(contexts, overrideContexts, "any")
  }

  // ---------------------------------------------------------------------
  // Rows of the listing

  /** The four maps the listing reads. */
  datatype Layers = Layers(
    defaults: map<string, bool>,           // transient data, default contexts
    defaultOverrides: map<string, bool>,   // persistent data, default contexts
    overrides: map<string, bool>,          // persistent data, override contexts
    claimValues: map<string, bool>)        // persistent data, {claim context}

  /** What every cell of one listing shares. */
  datatype Gate = Gate(src: CommandSource, claimId: Uuid, denyReason: Option<string>, source: string)

  /** A piece of a row's Text: the flag name, "  [", ", ", a value, "]". */
  datatype Cell = Label(flag: string) | Open | Sep | Value(text: ClickableText) | Close

  type Row = seq<Cell>

  function Clickable(g: Gate, flag: string, value: Tristate, t: FlagType): ClickableText
  {
    GetClickableText(g.src, g.claimId, g.denyReason, flag, value, g.source, t)
  }

  /** The default value a row shows: the persistent one when the key has
      one, otherwise the transient one. */
  function DefaultValue(l: Layers, k: string): Tristate
    requires k in l.defaults
  {
    FromBoolean(if k in l.defaultOverrides then l.defaultOverrides[k] else l.defaults[k])
  }

  /** Reference definition of a row's values, in layer order: the default
      when the key has a transient default; the claim's value, or an empty
      settable claim slot when only a default exists; the override. */
  function LayerValues(l: Layers, g: Gate, k: string): seq<ClickableText>
  {
    (if k in l.defaults then [Clickable(g, k, DefaultValue(l, k), DEFAULT)] else [])
    + (if k in l.claimValues then [Clickable(g, k, FromBoolean(l.claimValues[k]), CLAIM)]
       else if k in l.defaults then [Clickable(g, k, UNDEFINED, CLAIM)]
       else [])
    + (if k in l.overrides then [Clickable(g, k, FromBoolean(l.overrides[k]), OVERRIDE)] else [])
  }

  /** Values separated by ", ". */
  function Separated(ts: seq<ClickableText>): seq<Cell>
  {
    if |ts| <= 1 then (if ts == [] then [] else [Value(ts[0])])
    else [Value(ts[0]), Sep] + Separated(ts[1..])
  }

  /** Reference definition of a row: the name, "[", the values, "]". */
  function ExpectedRow(l: Layers, g: Gate, k: string): Row
  {
    [Label(k), Open] + Separated(LayerValues(l, g, k)) + [Close]
  }

  /** The values a row shows, in order. */
  function ValuesOf(row: Row): seq<ClickableText>
  {
    if row == [] then []
    else (if row[0].Value? then [row[0].text] else []) + ValuesOf(row[1..])
  }

  lemma {:induction false} ValuesOfAppend(a: Row, b: Row)
    ensures ValuesOf(a + b) == ValuesOf(a) + ValuesOf(b)
  {
    if a == [] {
      assert a + b == b;
    } else {
      assert (a + b)[0] == a[0];
      assert (a + b)[1..] == a[1..] + b;
      ValuesOfAppend(a[1..], b);
    }
  }

  /** Separating values and reading them back gives the values; no "]" is
      among the separated cells. */
  lemma {:induction false} SeparatedRoundTrip(ts: seq<ClickableText>)
    ensures ValuesOf(Separated(ts)) == ts
    ensures forall i :: 0 <= i < |Separated(ts)| ==> Separated(ts)[i] != Close
  {
    if |ts| > 1 {
      SeparatedRoundTrip(ts[1..]);
      ValuesOfAppend([Value(ts[0]), Sep], Separated(ts[1..]));
    }
  }

  /** Every row ends with exactly one "]", opens with the flag name and "[",
      and shows exactly the layer values of the reference definition. */
  lemma RowShape(l: Layers, g: Gate, k: string)
    ensures var row := ExpectedRow(l, g, k);
      && |row| >= 3 && row[0] == Label(k) && row[1] == Open && row[|row| - 1] == Close
      && (forall i :: 0 <= i < |row| - 1 ==> row[i] != Close)
      && ValuesOf(row) == LayerValues(l, g, k)
  {
    var ts := LayerValues(l, g, k);
    SeparatedRoundTrip(ts);
    ValuesOfAppend([Label(k), Open], Separated(ts));
    ValuesOfAppend([Label(k), Open] + Separated(ts), [Close]);
  }

  /** Which layers a row shows a value for, and which values. */
  lemma RowLayers(l: Layers, g: Gate, k: string)
    ensures var vs := ValuesOf(ExpectedRow(l, g, k));
      && (k in l.defaults <==> exists i :: 0 <= i < |vs| && vs[i].flagType == DEFAULT)
      && (k in l.defaults ==>
            && vs[0].flagType == DEFAULT
            && vs[0].value == (if k in l.defaultOverrides then FromBoolean(l.defaultOverrides[k])
                               else FromBoolean(l.defaults[k])))
      && (k in l.overrides <==> |vs| > 0 && vs[|vs| - 1].flagType == OVERRIDE)
      && (k in l.overrides ==> vs[|vs| - 1].value == FromBoolean(l.overrides[k]))
      && (k in l.claimValues || k in l.defaults <==> exists i :: 0 <= i < |vs| && vs[i].flagType == CLAIM)
      && (k in l.defaults && k !in l.claimValues ==> vs[1].flagType == CLAIM && vs[1].value == UNDEFINED)
  {
    RowShape(l, g, k);
    var vs := LayerValues(l, g, k);
    if k in l.claimValues || k in l.defaults {
      var d := if k in l.defaults then 1 else 0;
      assert vs[d].flagType == CLAIM;
    }
  }

  /** A key set only as a persistent default, with no transient default, in
      no claim and no override, gets no row. */
  lemma PersistentDefaultAloneHasNoValues(l: Layers, g: Gate, k: string)
    requires k in l.defaultOverrides && k !in l.defaults && k !in l.claimValues && k !in l.overrides
    ensures LayerValues(l, g, k) == []
  {
  }

  // The row of a key after each of the three loops of the listing.

  ghost function DefaultStage(l: Layers, g: Gate, k: string): Row
    requires k in l.defaults
  {
    [Label(k), Open, Value(Clickable(g, k, DefaultValue(l, k), DEFAULT))]
    + (if k !in l.claimValues
       then [Sep, Value(Clickable(g, k, UNDEFINED, CLAIM))] + (if k !in l.overrides then [Close] else [])
       else [])
  }

  ghost function ClaimStage(l: Layers, g: Gate, k: string): Row
    requires k in l.claimValues
  {
    (if k in l.defaults then DefaultStage(l, g, k) + [Sep] else [Label(k), Open])
    + [Value(Clickable(g, k, FromBoolean(l.claimValues[k]), CLAIM))]
    + (if k !in l.overrides then [Close] else [])
  }

  ghost function OverrideStage(l: Layers, g: Gate, k: string): Row
    requires k in l.overrides
  {
    (if k in l.claimValues then ClaimStage(l, g, k) + [Sep]
     else if k in l.defaults then DefaultStage(l, g, k) + [Sep]
     else [Label(k), Open])
    + [Value(Clickable(g, k, FromBoolean(l.overrides[k]), OVERRIDE)), Close]
  }

  /** The three loops together build the reference row. */
  lemma FinalStageIsExpected(l: Layers, g: Gate, k: string)
    requires k in l.defaults || k in l.claimValues || k in l.overrides
    ensures k in l.overrides ==> OverrideStage(l, g, k) == ExpectedRow(l, g, k)
    ensures k !in l.overrides && k in l.claimValues ==> ClaimStage(l, g, k) == ExpectedRow(l, g, k)
    ensures k !in l.overrides && k !in l.claimValues ==> DefaultStage(l, g, k) == ExpectedRow(l, g, k)
  {
    var ts := LayerValues(l, g, k);
    if |ts| > 1 {
      assert Separated(ts) == [Value(ts[0]), Sep] + Separated(ts[1..]);
      if |ts| > 2 {
        assert Separated(ts[1..]) == [Value(ts[1]), Sep] + Separated(ts[2..]);
      }
    }
  }

  /** The first loop of the listing: a row per transient default. */
  method DefaultRows(l: Layers, g: Gate) returns (flagList: map<string, Row>)
    ensures forall k :: k in flagList <==> k in l.defaults
    ensures forall k :: k in flagList ==> flagList[k] == DefaultStage(l, g, k)
  {
    flagList := map[];
    var todo := l.defaults.Keys;
    while todo != {}
      invariant todo <= l.defaults.Keys
      invariant forall k :: k in flagList <==> k in l.defaults && k !in todo
      invariant forall k :: k in flagList ==> flagList[k] == DefaultStage(l, g, k)
      decreases |todo|
    {
      var flag :| flag in todo;
      var value := if flag in l.defaultOverrides then FromBoolean(l.defaultOverrides[flag])
                   else FromBoolean(l.defaults[flag]);
      var flagText := [Label(flag), Open, Value(Clickable(g, flag, value, DEFAULT))];
      if flag !in l.claimValues {
        flagText := flagText + [Sep, Value(Clickable(g, flag, UNDEFINED, CLAIM))];
        if flag !in l.overrides {
          flagText := flagText + [Close];
        }
      }
      flagList := flagList[flag := flagText];
      todo := todo - {flag};
    }
  }

  /** What the second loop has built once the keys in `todo` remain. */
  /** The row after one more value: a row of its own for a flag without
      one, else the value after a separator; `closes` adds the "]". */
  function Join(current: Option<Row>, flag: string, value: ClickableText, closes: bool): Row
  {
    (if current.None? then [Label(flag), Open] else current.value + [Sep])
    + [Value(value)] + (if closes then [Close] else [])
  }

  /** The row a flag has so far, None for none. */
  function RowSoFar(flagList: map<string, Row>, flag: string): Option<Row>
  {
    if flag in flagList then Some(flagList[flag]) else None
  }

  ghost predicate ClaimLoopInv(l: Layers, g: Gate, flagList: map<string, Row>, todo: set<string>)
  {
    && todo <= l.claimValues.Keys
    && (forall k :: k in flagList <==> k in l.defaults || (k in l.claimValues && k !in todo))
    && (forall k :: k in flagList ==>
          flagList[k] == if k in l.claimValues && k !in todo then ClaimStage(l, g, k) else DefaultStage(l, g, k))
  }

  lemma ClaimLoopStep(l: Layers, g: Gate, flagList: map<string, Row>, todo: set<string>, flag: string)
    requires ClaimLoopInv(l, g, flagList, todo) && flag in todo
    ensures var value := Clickable(g, flag, FromBoolean(l.claimValues[flag]), CLAIM);
      var newText := Join(RowSoFar(flagList, flag), flag, value, flag !in l.overrides);
      && newText == ClaimStage(l, g, flag)
      && ClaimLoopInv(l, g, flagList[flag := newText], todo - {flag})
  {
    var value := Clickable(g, flag, FromBoolean(l.claimValues[flag]), CLAIM);
    var newText := Join(RowSoFar(flagList, flag), flag, value, flag !in l.overrides);
    if flag in l.defaults {
      assert flagList[flag] == DefaultStage(l, g, flag);
    } else {
      assert flag !in flagList;
    }
    var after := flagList[flag := newText];
    forall k | k in after
      ensures after[k] == if k in l.claimValues && k !in todo - {flag} then ClaimStage(l, g, k) else DefaultStage(l, g, k)
    {
      if k != flag { assert after[k] == flagList[k]; }
    }
  }

  /** The second loop: each claim value joins its default row or opens a
      row of its own. */
  method AddClaimRows(l: Layers, g: Gate, defaultRows: map<string, Row>) returns (flagList: map<string, Row>)
    requires forall k :: k in defaultRows <==> k in l.defaults
    requires forall k :: k in defaultRows ==> defaultRows[k] == DefaultStage(l, g, k)
    ensures forall k :: k in flagList <==> k in l.defaults || k in l.claimValues
    ensures forall k :: k in flagList ==>
      flagList[k] == if k in l.claimValues then ClaimStage(l, g, k) else DefaultStage(l, g, k)
  {
    flagList := defaultRows;
    var todo := l.claimValues.Keys;
    while todo != {}
      invariant ClaimLoopInv(l, g, flagList, todo)
      decreases |todo|
    {
      var flag :| flag in todo;
      var flagText := Clickable(g, flag, FromBoolean(l.claimValues[flag]), CLAIM);
      var newText := Join(RowSoFar(flagList, flag), flag, flagText, flag !in l.overrides);
      ClaimLoopStep(l, g, flagList, todo, flag);
      flagList := flagList[flag := newText];
      todo := todo - {flag};
    }
  }

  /** The row of a key while the overrides in `todo` are still to come. */
  ghost function OverrideLoopRow(l: Layers, g: Gate, k: string, todo: set<string>): Row
    requires k in l.defaults || k in l.claimValues || (k in l.overrides && k !in todo)
  {
    if k in l.overrides && k !in todo then OverrideStage(l, g, k)
    else if k in l.claimValues then ClaimStage(l, g, k)
    else DefaultStage(l, g, k)
  }

  ghost predicate OverrideLoopInv(l: Layers, g: Gate, flagList: map<string, Row>, todo: set<string>)
  {
    && todo <= l.overrides.Keys
    && (forall k :: k in flagList <==>
          k in l.defaults || k in l.claimValues || (k in l.overrides && k !in todo))
    && (forall k :: k in flagList ==> flagList[k] == OverrideLoopRow(l, g, k, todo))
  }

  /** The joined text of an override is its stage row. */
  lemma OverrideText(l: Layers, g: Gate, flagList: map<string, Row>, todo: set<string>, flag: string)
    requires OverrideLoopInv(l, g, flagList, todo) && flag in todo
    ensures var value := Clickable(g, flag, FromBoolean(l.overrides[flag]), OVERRIDE);
      Join(RowSoFar(flagList, flag), flag, value, true) == OverrideStage(l, g, flag)
  {
    var value := Clickable(g, flag, FromBoolean(l.overrides[flag]), OVERRIDE);
    if flag in l.claimValues {
      assert flagList[flag] == ClaimStage(l, g, flag);
    } else if flag in l.defaults {
      assert flagList[flag] == DefaultStage(l, g, flag);
    } else {
      assert flag !in flagList;
    }
  }

  lemma OverrideLoopStep(l: Layers, g: Gate, flagList: map<string, Row>, todo: set<string>, flag: string)
    requires OverrideLoopInv(l, g, flagList, todo) && flag in todo
    ensures var value := Clickable(g, flag, FromBoolean(l.overrides[flag]), OVERRIDE);
      var newText := Join(RowSoFar(flagList, flag), flag, value, true);
      && newText == OverrideStage(l, g, flag)
      && OverrideLoopInv(l, g, flagList[flag := newText], todo - {flag})
  {
    OverrideText(l, g, flagList, todo, flag);
    var after := flagList[flag := OverrideStage(l, g, flag)];
    forall k | k in after ensures after[k] == OverrideLoopRow(l, g, k, todo - {flag}) {
      if k != flag {
        assert after[k] == flagList[k] == OverrideLoopRow(l, g, k, todo);
      }
    }
  }

  /** After the last override every row is the reference row. */
  lemma OverrideLoopDone(l: Layers, g: Gate, flagList: map<string, Row>)
    requires OverrideLoopInv(l, g, flagList, {})
    ensures forall k :: k in flagList <==> k in l.defaults || k in l.claimValues || k in l.overrides
    ensures forall k :: k in flagList ==> flagList[k] == ExpectedRow(l, g, k)
  {
    forall k | k in flagList ensures flagList[k] == ExpectedRow(l, g, k) {
      FinalStageIsExpected(l, g, k);
    }
  }

  /** The third loop: each override closes the row it joins, or a row of
      its own. */
  method AddOverrideRows(l: Layers, g: Gate, claimRows: map<string, Row>) returns (flagList: map<string, Row>)
    requires forall k :: k in claimRows <==> k in l.defaults || k in l.claimValues
    requires forall k :: k in claimRows ==>
      claimRows[k] == if k in l.claimValues then ClaimStage(l, g, k) else DefaultStage(l, g, k)
    ensures forall k :: k in flagList <==> k in l.defaults || k in l.claimValues || k in l.overrides
    ensures forall k :: k in flagList ==> flagList[k] == ExpectedRow(l, g, k)
  {
    flagList := claimRows;
    var todo := l.overrides.Keys;
    while todo != {}
      invariant OverrideLoopInv(l, g, flagList, todo)
      decreases |todo|
    {
      var flag :| flag in todo;
      var flagText := Clickable(g, flag, FromBoolean(l.overrides[flag]), OVERRIDE);
      var newText := Join(RowSoFar(flagList, flag), flag, flagText, true);
      OverrideLoopStep(l, g, flagList, todo, flag);
      flagList := flagList[flag := newText];
      todo := todo - {flag};
    }
    OverrideLoopDone(l, g, flagList);
  }

  /** The map's rows in the order of `keys`: the values of a TreeMap. */
  method ValuesInOrder(flagList: map<string, Row>, keys: seq<string>) returns (rows: seq<Row>)
    requires forall i :: 0 <= i < |keys| ==> keys[i] in flagList
    ensures |rows| == |keys|
    ensures forall i :: 0 <= i < |keys| ==> rows[i] == flagList[keys[i]]
  {
    rows := [];
    var i := 0;
    while i < |keys|
      invariant 0 <= i <= |keys|
      invariant |rows| == i
      invariant forall j :: 0 <= j < i ==> rows[j] == flagList[keys[j]]
    {
      rows := rows + [flagList[keys[i]]];
      i := i + 1;
    }
  }

  /** The listing: one row per key of the transient defaults, the claim's
      values and the overrides, in ascending key order (a TreeMap). */
  method ListFlags(l: Layers, g: Gate) returns (keys: seq<string>, rows: seq<Row>)
    ensures StrictlySorted(keys)
    ensures forall k :: k in keys <==> k in l.defaults || k in l.claimValues || k in l.overrides
    ensures |rows| == |keys|
    ensures forall i :: 0 <= i < |keys| ==> rows[i] == ExpectedRow(l, g, keys[i])
  {
    var flagList := DefaultRows(l, g);
    flagList := AddClaimRows(l, g, flagList);
    flagList := AddOverrideRows(l, g, flagList);
    keys := SortedKeys(flagList);
    rows := ValuesInOrder(flagList, keys);
  }

  /** `rows` is the listing of these layers. */
  /** `rows` are the expected rows of `keys`, one per key, and `keys` are
      the listing's keys in ascending order. */
  ghost predicate ListsKeys(rows: seq<Row>, keys: seq<string>, l: Layers, g: Gate)
  {
    && StrictlySorted(keys)
    && (forall k :: k in keys <==> k in l.defaults || k in l.claimValues || k in l.overrides)
    && |rows| == |keys|
    && (forall i :: 0 <= i < |keys| ==> rows[i] == ExpectedRow(l, g, keys[i]))
  }

  ghost predicate IsListing(rows: seq<Row>, l: Layers, g: Gate)
  {
    exists keys: seq<string> :: ListsKeys(rows, keys, l, g)
  }

  /** Sorted keys and their expected rows make a listing. */
  lemma ListingOf(keys: seq<string>, rows: seq<Row>, l: Layers, g: Gate)
    requires StrictlySorted(keys)
    requires forall k :: k in keys <==> k in l.defaults || k in l.claimValues || k in l.overrides
    requires |rows| == |keys|
    requires forall i :: 0 <= i < |keys| ==> rows[i] == ExpectedRow(l, g, keys[i])
    ensures IsListing(rows, l, g)
  {
    assert ListsKeys(rows, keys, l, g);
  }

  // ---------------------------------------------------------------------
  // The command (execute)

  datatype FlagArgs = FlagArgs(
    flag: Option<string>, source: Option<string>, targets: seq<string>,
    value: Option<Tristate>, context: Option<string>)

  /** The plugin state the command reads: the world's context, the
      registered custom contexts, GLOBAL_SUBJECT's transient and persistent
      permission data, and the keys of the default-flag catalogue. */
  datatype FlagEnv = FlagEnv(
    world: Context, customContexts: map<string, Context>,
    transientData: Store, subjectData: Store, defaultFlags: set<string>)

  datatype FlagOutcome =
    | NotAPlayer
    | NoClaimFound
    | Listing(rows: seq<Row>)
    | Written(write: FlagWrite)
    | InvalidFlag
    | Usage

  /** The source and target the arguments give: two or more targets force
      the source "any" and take the second as the target. */
  function SourceAndTarget(source: Option<string>, targets: seq<string>): (r: (Option<string>, Option<string>))
    ensures |targets| == 0 ==> r == (source, None)
    ensures |targets| == 1 ==> r == (source, Some(targets[0]))
    ensures |targets| >= 2 ==> r == (Some("any"), Some(targets[1]))
  {
    if targets == [] then (source, None)
    else if |targets| > 1 then (Some("any"), Some(targets[1]))
    else (source, Some(targets[0]))
  }

  function LayersFor(claim: Claim, env: FlagEnv, ctx: ListingContexts): Layers
  {
    Layers(
      GetPermissions(env.transientData, ctx.defaults),
      GetPermissions(env.subjectData, ctx.defaults),
      GetPermissions(env.subjectData, ctx.overrides),
      GetPermissions(env.subjectData, {ClaimContext(claim.id)}))
  }

  /** The listing branch of the command: the contexts, the four maps and
      the sorted rows. */
  method ListingBranch(
    src: CommandSource, claim: Claim, env: FlagEnv, source: Option<string>, denyReason: Option<string>)
    returns (rows: seq<Row>)
    ensures
      var ctx := SelectContexts(claim, env.world, source, env.customContexts);
      IsListing(rows, LayersFor(claim, env, ctx), Gate(src, claim.id, denyReason, ctx.source))
  {
    var ctx := SelectContexts(claim, env.world, source, env.customContexts);
    var layers := LayersFor(claim, env, ctx);
    var g := Gate(src, claim.id, denyReason, ctx.source);
    var keys;
    keys, rows := ListFlags(layers, g);
    ListingOf(keys, rows, layers, g);
  }

  /** `claim` is the claim at the player's location (top level only);
      `denyReason` is that claim's allowEdit answer for the player. */
  method Execute(
    src: CommandSource, args: FlagArgs, claim: Option<Claim>, env: FlagEnv, denyReason: Option<string>)
    returns (out: FlagOutcome)
    ensures src.Console? ==> out == NotAPlayer
    ensures src.Player? && claim.None? ==> out == NoClaimFound
    ensures src.Player? && claim.Some? ==>
      (out.Listing? <==> args.flag.None? && args.value.None? && src.HasPermission(ListClaimFlags))
    ensures out.Listing? ==>
      var (source, _) := SourceAndTarget(args.source, args.targets);
      var ctx := SelectContexts(claim.value, env.world, source, env.customContexts);
      IsListing(out.rows, LayersFor(claim.value, env, ctx), Gate(src, claim.value.id, denyReason, ctx.source))
    ensures src.Player? && claim.Some? && args.flag.Some? && args.value.Some? ==>
      (out.Written? <==> args.flag.value in env.defaultFlags)
      && (out.InvalidFlag? <==> args.flag.value !in env.defaultFlags)
    ensures out.Written? ==> (args.flag.Some? && args.value.Some? && claim.Some? &&
      var (source, target) := SourceAndTarget(args.source, args.targets);
      out.write == AddFlagPermission(claim.value.id, args.flag.value, source, target, args.value.value, args.context))
    ensures (&& src.Player? && claim.Some?
             && !(args.flag.None? && args.value.None? && src.HasPermission(ListClaimFlags))
             && !(args.flag.Some? && args.value.Some?)) ==> out == Usage
  {
    var (source, target) := SourceAndTarget(args.source, args.targets);
    if src.Console? {
      return NotAPlayer;
    }
    if claim.None? {
      return NoClaimFound;
    }
    var c := claim.value;
    if args.flag.None? && args.value.None? && src.HasPermission(ListClaimFlags) {
      var rows := ListingBranch(src, c, env, source, denyReason);
      return Listing(rows);
    } else if args.flag.Some? && args.value.Some? {
      if args.flag.value in env.defaultFlags {
        return Written(AddFlagPermission(c.id, args.flag.value, source, target, args.value.value, args.context));
      } else {
        return InvalidFlag;
      }
    }
    return Usage;
  }
}
