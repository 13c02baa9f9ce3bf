/** PlayerUtils: small decisions about a player's hands, the claim type a
    shovel mode creates, reading a Tristate or an integer option from a
    string, and the display name of a player id. */
module PlayerUtils {
  import opened JavaLang
  import opened ClaimModel

  // ---------------------------------------------------------------------
  // hasItemInOneHand

  type ItemType = string

  /** What a player holds: the item type of the stack in each hand, None for
      an empty hand. */
  datatype Hands = Hands(mainHand: Option<ItemType>, offHand: Option<ItemType>)

  /** hasItemInOneHand(player, itemType). */
  function HasItemInOneHand(h: Hands, itemType: ItemType): (r: bool)
    ensures r <==> h.mainHand == Some(itemType) || h.offHand == Some(itemType)
  {
    (h.mainHand.Some? && h.mainHand.value == itemType) || (h.offHand.Some? && h.offHand.value == itemType)
  }

  /** hasItemInOneHand(player). */
  function HasAnyItemInHand(h: Hands): (r: bool)
    ensures r <==> h.mainHand.Some? || h.offHand.Some?
  {
    h.mainHand.Some? || h.offHand.Some?
  }

  /** The one-argument overload holds exactly when some item type makes the
      two-argument overload hold. */
  lemma AnyItemIffSomeItemType(h: Hands)
    ensures HasAnyItemInHand(h) <==> exists t :: HasItemInOneHand(h, t)
  {
    if h.mainHand.Some? {
      assert HasItemInOneHand(h, h.mainHand.value);
    } else if h.offHand.Some? {
      assert HasItemInOneHand(h, h.offHand.value);
    }
  }

  // ---------------------------------------------------------------------
  // getClaimTypeFromShovel

  /** ShovelMode: the two modes the mapping names, and the others. */
  datatype ShovelMode = Basic | Admin | Subdivide | OtherMode(name: string)

  function ClaimTypeFromShovel(mode: ShovelMode): (t: ClaimType)
    ensures t != WILDERNESS
    ensures t == ADMIN <==> mode == Admin
    ensures t == SUBDIVISION <==> mode == Subdivide
    ensures t == BASIC <==> mode != Admin && mode != Subdivide
  {
    if mode == Admin then ADMIN
    else if mode == Subdivide then SUBDIVISION
    else BASIC
  }

  // ---------------------------------------------------------------------
  // getTristateFromString

  /** Tristate.name(). */
  function EnumName(t: Tristate): string
  {
    match t
    case TRUE => "TRUE"
    case FALSE => "FALSE"
    case UNDEFINED => "UNDEFINED"
  }

  /** Tristate.valueOf: the constant with exactly this name. */
  function ValueOf(name: string): (r: Option<Tristate>)
    ensures r.Some? ==> EnumName(r.value) == name
    ensures r.None? ==> forall t :: EnumName(t) != name
  {
    if name == "TRUE" then Some(TRUE)
    else if name == "FALSE" then Some(FALSE)
    else if name == "UNDEFINED" then Some(UNDEFINED)
    else None
  }

  /** The Tristate a parsed integer stands for. */
  function FromInt(n: int): (t: Tristate)
    ensures t == FALSE <==> n < 0
    ensures t == UNDEFINED <==> n == 0
    ensures t == TRUE <==> n > 0
  {
    if n <= -1 then FALSE else if n == 0 then UNDEFINED else TRUE
  }

  /** getTristateFromString: an integer first, then a constant's name in any
      case, else null (None). */
  function TristateFromString(value: string): (r: Option<Tristate>)
    ensures ParseInt(value).Some? ==> r == Some(FromInt(ParseInt(value).value))
    ensures ParseInt(value).None? ==> r == ValueOf(ToUpper(value))
  {
    match ParseInt(value)
    case Some(n) => Some(FromInt(n))
    case None => ValueOf(ToUpper(value))
  }

  /** A parseable integer's sign decides: negative FALSE, zero UNDEFINED,
      positive TRUE. */
  lemma IntegerSignDecides(value: string)
    requires ParseInt(value).Some?
    ensures ParseInt(value).value <= -1 ==> TristateFromString(value) == Some(FALSE)
    ensures ParseInt(value).value == 0 ==> TristateFromString(value) == Some(UNDEFINED)
    ensures ParseInt(value).value >= 1 ==> TristateFromString(value) == Some(TRUE)
  {
  }

  /** The constants' names are already upper case. */
  lemma EnumNameIsUpper(t: Tristate)
    ensures ToUpper(EnumName(t)) == EnumName(t)
  {
    ToUpperKeepsUpper(EnumName(t));
  }

  /** A constant's name in any case is read as that constant: it never
      parses as an integer. */
  lemma NameInAnyCase(value: string, t: Tristate)
    requires EqualsIgnoreCase(value, EnumName(t))
    ensures TristateFromString(value) == Some(t)
  {
    EnumNameIsUpper(t);
    assert |value| == |EnumName(t)| > 0;
    // the first character is a letter, never a sign or a digit
    EqualsIgnoreCaseAt(value, EnumName(t), 0);
    assert ParseInt(value).None?;
  }

  /** Every other string that does not parse as an integer gives null. */
  lemma OtherStringsAreNull(value: string)
    requires ParseInt(value).None?
    requires forall t :: !EqualsIgnoreCase(value, EnumName(t))
    ensures TristateFromString(value) == None
  {
    forall t ensures EnumName(t) != ToUpper(value) {
      EnumNameIsUpper(t);
    }
  }

  /** A numeral outside the 32-bit range, signed or not, is not an integer
      for parseInt and is no constant's name either, so it gives null. */
  lemma OutOfRangeNumeralIsNull(value: string)
    requires Body(value) != [] && AllDigits(Body(value)) && !IsInt32(Signed(value))
    ensures TristateFromString(value) == None
  {
    assert ParseInt(value) == None;
    var upper := ToUpper(value);
    assert IsDigit(value[0]) || value[0] == '-' || value[0] == '+';
    assert upper[0] == value[0];
    assert upper != "TRUE" && upper != "FALSE" && upper != "UNDEFINED";
  }

  /** String.valueOf of an int reads back as the Tristate of its sign. */
  lemma PrintedIntRoundTrip(n: int)
    requires IsInt32(n)
    ensures TristateFromString(IntToString(n)) == Some(FromInt(n))
  {
    ParseIntOfIntToString(n);
  }

  // ---------------------------------------------------------------------
  // getOptionIntValue

  /** The value an option string gives: its integer, or the default when it
      does not parse. */
  function IntOption(optionValue: string, defaultValue: int): (r: int)
    ensures ParseInt(optionValue).Some? ==> r == ParseInt(optionValue).value && IsInt32(r)
    ensures ParseInt(optionValue).None? ==> r == defaultValue
  {
    match ParseInt(optionValue)
    case Some(n) => n
    case None => defaultValue
  }

  /** The default recorded for a missing option reads back as itself. */
  lemma RecordedDefaultReadsBack(defaultValue: int, otherDefault: int)
    requires IsInt32(defaultValue)
    ensures IntOption(IntToString(defaultValue), otherDefault) == defaultValue
  {
    ParseIntOfIntToString(defaultValue);
  }

  /** GLOBAL_SUBJECT's transient options under the empty context set. */
  class GlobalSubject {
    var transientOptions: map<string, string>

    constructor (options: map<string, string>)
      ensures transientOptions == options
    {
      transientOptions := options;
    }

    /** getOptionIntValue: `optionValue` is the subject's option for `key`.
        A missing option records the default as a transient option. */
    method GetOptionIntValue(optionValue: Option<string>, key: string, defaultValue: int) returns (r: int)
      requires IsInt32(defaultValue)
      modifies this
      ensures IsInt32(r)
      ensures optionValue.Some? ==>
        r == IntOption(optionValue.value, defaultValue) && transientOptions == old(transientOptions)
      ensures optionValue.None? ==>
        r == defaultValue && transientOptions == old(transientOptions)[key := IntToString(defaultValue)]
    {
      if optionValue.Some? {
        return IntOption(optionValue.value, defaultValue);
      }
      transientOptions := transientOptions[key := IntToString(defaultValue)];
      return defaultValue;
    }
  }

  // ---------------------------------------------------------------------
  // lookupPlayerName

  datatype NameLookup = NameLookup(name: string, logEntry: Option<string>)

  const InvalidUuidLog: string := "Error: Tried to look up a local player name for invalid UUID: "

  /** lookupPlayerName: `users` is the user store by id, `worldUser` the
      world user's id. */
  function LookupPlayerName(uuid: Uuid, worldUser: Uuid, users: map<Uuid, string>): (r: NameLookup)
    ensures uuid == worldUser ==> r == NameLookup("administrator", None)
    ensures uuid != worldUser && uuid !in users ==> r == NameLookup("someone", Some(InvalidUuidLog + uuid))
    ensures uuid != worldUser && uuid in users ==> r == NameLookup(users[uuid], None)
    ensures r.logEntry.Some? <==> uuid != worldUser && uuid !in users
  {
    if uuid == worldUser then NameLookup("administrator", None)
    else if uuid !in users then NameLookup("someone", Some(InvalidUuidLog + uuid))
    else NameLookup(users[uuid], None)
  }
}
