/**
  The add-token form (ui/screens/AddTokenScreen.tsx) reduced to its rules: the field
  defaults, the address normalisation on input and on blur, the rule that starts a
  metadata fetch, the merge of fetched details over typed fields, the completeness test
  and the submitted payload. `isValidAddress` is a parameter `valid`; the metadata fetch
  is an event carrying its result.
 */
module AddTokenForm {
  import opened Basics
  import opened Text
  import opened Envelope
  import Bridge

  /** Fetched token metadata; absent fields are `None`. */
  datatype TokenDetails = TokenDetails(
    address: string,
    name: Option<string>,
    symbol: Option<string>,
    decimals: Option<nat>,
    balance: Option<nat>)

  /** The screen's state: the four inputs, the fetch flag, the fetched details, the last fetched address. */
  datatype Form = Form(
    tokenAddress: string,
    tokenName: string,
    tokenSymbol: string,
    tokenDecimals: string,
    loading: bool,
    details: Option<TokenDetails>,
    prevValidAddress: string)

  /** `compiledData`: what the form would submit. */
  datatype Compiled = Compiled(
    address: string,
    name: string,
    symbol: string,
    decimals: Option<nat>,
    balance: Option<nat>,
    networkId: string)

  /** The argument of `onSubmit`. */
  datatype Submission = Submission(address: string, decimals: string, name: string, symbol: string, networkId: string)

  /** `x || d` on an optional string: the default replaces a missing or empty value. */
  function OrElse(x: Option<string>, d: string): (r: string)
    ensures r == d <==> x.None? || x.value == "" || x.value == d
    ensures r != d ==> x == Some(r)
  {
    if x.Some? && x.value != "" then x.value else d
  }

  /** The fields as the screen mounts: taken from the request, empty when missing, decimals "0". */
  function Init(default: Option<TokenRequest>): (f: Form)
    ensures !f.loading && f.details.None? && f.prevValidAddress == ""
    ensures f.tokenDecimals != ""
    ensures default.None? ==> f.tokenAddress == "" && f.tokenName == "" && f.tokenSymbol == "" && f.tokenDecimals == "0"
    ensures default.Some? ==>
      && f.tokenAddress == OrElse(Some(default.value.address), "")
      && f.tokenName == OrElse(Some(default.value.name), "")
      && f.tokenSymbol == OrElse(Some(default.value.symbol), "")
      && f.tokenDecimals == OrElse(default.value.decimals, "0")
  {
    match default
    case None => Form("", "", "", "0", false, None, "")
    case Some(d) =>
      Form(OrElse(Some(d.address), ""), OrElse(Some(d.name), ""), OrElse(Some(d.symbol), ""),
           OrElse(d.decimals, "0"), false, None, "")
  }

  /** Typing into the address field stores the lower-cased text; the field is disabled while loading. */
  function TypeAddress(f: Form, input: string): (f': Form)
    ensures f.loading ==> f' == f
    ensures !f.loading ==> f' == f.(tokenAddress := ToLower(input))
    ensures ToLower(f'.tokenAddress) == f'.tokenAddress || f' == f
  {
    if f.loading then f else f.(tokenAddress := ToLower(input))
  }

  /** `number.toBN`: hex after a `0x` prefix, decimal otherwise; `None` where parsing throws. */
  function ToBN(s: string): (r: Option<nat>)
    ensures |s| >= 2 && s[..2] == "0x" ==> r == ParseHex(s[2..])
    ensures !(|s| >= 2 && s[..2] == "0x") ==> r == ParseDecimal(s)
  {
    if |s| >= 2 && s[..2] == "0x" then ParseHex(s[2..]) else ParseDecimal(s)
  }

  /** `addressFormat64Byte` on a parsed value: `0x` and the lower-case hex digits, zero-padded to 64. */
  function Format64(n: nat): (r: string)
    ensures |r| >= 66 && r[..2] == "0x"
    ensures AllDigits(r[2..], 16) && Value(r[2..], 16) == n
    ensures IsLowerHex(r[2..])
    ensures |r| - 2 >= |Show(n, 16)|
    ensures |r| == 66 || r[2] != '0'
  {
    PaddedHex(n);
    "0x" + PadStart(Show(n, 16), 64, '0')
  }

  lemma PaddedHex(n: nat)
    ensures var padded := PadStart(Show(n, 16), 64, '0');
      && AllDigits(padded, 16) && Value(padded, 16) == n && IsLowerHex(padded)
      && (|padded| == 64 || padded[0] != '0')
  {
    var digits := Show(n, 16);
    var padded := PadStart(digits, 64, '0');
    ShowValue(n, 16);
    ShowIsLower(n, 16);
    var z := |padded| - |digits|;
    LeadingZeros(z, digits, 16);
    assert padded == Repeat('0', z) + digits;
    ZeroPadLower(z, digits);
    if |padded| != 64 {
      assert padded == digits;
      LeadingDigit(n, 16);
    }
  }

  /** Zero padding keeps a digit string lower-case. */
  lemma ZeroPadLower(z: nat, s: string)
    requires IsLowerHex(s)
    ensures IsLowerHex(Repeat('0', z) + s)
  {
    var t := Repeat('0', z) + s;
    forall i | 0 <= i < |t| ensures t[i] in Alphabet {
      if i >= z { assert t[i] == s[i - z]; }
    }
  }

  /** A rendered number longer than one digit does not start with zero. */
  lemma {:induction false} LeadingDigit(n: nat, base: nat)
    requires 2 <= base <= 16
    ensures |Show(n, base)| > 1 ==> Show(n, base)[0] != '0'
    decreases n
  {
    if n >= base {
      DivMod(n, base);
      LeadingDigit(n / base, base);
      assert Show(n, base)[0] == Show(n / base, base)[0];
      if |Show(n / base, base)| == 1 {
        assert n / base >= 1;
        assert DigitValue(Show(n / base, base)[0]) == n / base;
      }
    }
  }

  /** Leaving the address field re-formats a parseable, non-empty address; a parse failure is swallowed. */
  function Blur(f: Form): (f': Form)
    ensures f.tokenAddress == "" || ToBN(f.tokenAddress).None? ==> f' == f
    ensures f.tokenAddress != "" && ToBN(f.tokenAddress).Some? ==>
      f' == f.(tokenAddress := Format64(ToBN(f.tokenAddress).value))
  {
    if f.tokenAddress == "" then f
    else match ToBN(f.tokenAddress)
      case None => f
      case Some(n) => f.(tokenAddress := Format64(n))
  }

  /** The formatted address parses back to the number it came from. */
  lemma Format64RoundTrip(n: nat)
    ensures ToBN(Format64(n)) == Some(n)
  {
    var r := Format64(n);
    assert r[..2] == "0x";
  }

  /** Formatting an already formatted address gives it back. */
  lemma Format64Idempotent(n: nat)
    ensures ToBN(Format64(n)).Some? && Format64(ToBN(Format64(n)).value) == Format64(n)
  {
    Format64RoundTrip(n);
  }

  /** Blurring twice is blurring once. */
  lemma BlurIdempotent(f: Form)
    ensures Blur(Blur(f)) == Blur(f)
  {
    if f.tokenAddress != "" && ToBN(f.tokenAddress).Some? {
      Format64RoundTrip(ToBN(f.tokenAddress).value);
    }
  }

  /** The effect's rule: a fetch starts when not loading, the address is valid and not the last one fetched. */
  predicate StartsFetch(f: Form, valid: string -> bool) {
    !f.loading && valid(f.tokenAddress) && f.tokenAddress != f.prevValidAddress
  }

  /** The effect run after a render: possibly record the address and start loading. */
  function Effect(f: Form, valid: string -> bool): (f': Form)
    ensures f'.loading && !f.loading <==> StartsFetch(f, valid)
    ensures StartsFetch(f, valid) ==> f' == f.(prevValidAddress := f.tokenAddress, loading := true)
    ensures !StartsFetch(f, valid) ==> f' == f
  {
    if StartsFetch(f, valid) then f.(prevValidAddress := f.tokenAddress, loading := true) else f
  }

  /** The fetch of the loading address completes: `None` when it failed. */
  function FetchSettled(f: Form, result: Option<TokenDetails>): (f': Form)
    requires f.loading
    ensures !f'.loading && f'.details == result
    ensures f'.tokenAddress == f.tokenAddress && f'.prevValidAddress == f.prevValidAddress
  {
    f.(loading := false, details := result)
  }

  /**
    Right after a fetch settles, whatever its result, the effect starts no second fetch of
    the same address. Only the last fetched address is remembered, so another valid
    address typed later starts a fetch again (`NewAddressRefetches`).
   */
  lemma NoRefetch(f: Form, valid: string -> bool, result: Option<TokenDetails>)
    requires StartsFetch(f, valid)
    ensures var g := FetchSettled(Effect(f, valid), result);
      !StartsFetch(g, valid) && Effect(g, valid) == g
  {
  }

  /** A different valid address typed after a fetch starts a new one. */
  lemma NewAddressRefetches(f: Form, valid: string -> bool, input: string)
    requires !f.loading && valid(ToLower(input)) && ToLower(input) != f.prevValidAddress
    ensures StartsFetch(TypeAddress(f, input), valid)
  {
  }

  /** BigNumber.from(text || "0") on a decimals field. */
  function TypedDecimals(s: string): (r: Option<nat>)
    ensures s == "" ==> r == Some(0)
    ensures s != "" ==> r == ParseDecimal(s)
  {
    if s == "" then Some(0) else ParseDecimal(s)
  }

  /**
    `compiledData`: fetched fields override typed ones; name and symbol fall back to the
    typed text when the fetched value is missing or empty; decimals fall back to the typed
    text; balance exists only in fetched details; the network is the screen's. `None` when
    the typed decimals do not parse, where rendering throws.
   */
  function Compile(f: Form, networkId: string): (r: Option<Compiled>)
    ensures r.None? <==> (f.details.None? || f.details.value.decimals.None?) && TypedDecimals(f.tokenDecimals).None?
    ensures r.Some? ==>
      && r.value.networkId == networkId
      && r.value.address == (if f.details.Some? then f.details.value.address else f.tokenAddress)
      && r.value.name == OrElse(if f.details.Some? then f.details.value.name else None, f.tokenName)
      && r.value.symbol == OrElse(if f.details.Some? then f.details.value.symbol else None, f.tokenSymbol)
      && r.value.balance == (if f.details.Some? then f.details.value.balance else None)
      && r.value.decimals == (if f.details.Some? && f.details.value.decimals.Some?
                              then f.details.value.decimals else TypedDecimals(f.tokenDecimals))
  {
    var d := f.details;
    var fetched := if d.Some? then d.value.decimals else None;
    var decimals := if fetched.Some? then fetched else TypedDecimals(f.tokenDecimals);
    if decimals.None? then None
    else Some(Compiled(
      if d.Some? then d.value.address else f.tokenAddress,
      OrElse(if d.Some? then d.value.name else None, f.tokenName),
      OrElse(if d.Some? then d.value.symbol else None, f.tokenSymbol),
      decimals,
      if d.Some? then d.value.balance else None,
      networkId))
  }

  /** `isDataComplete`: a valid address, a balance and decimals (zero counts), a name and a symbol. */
  predicate IsDataComplete(d: Compiled, valid: string -> bool) {
    valid(d.address) && d.balance.Some? && d.decimals.Some? && d.name != "" && d.symbol != ""
  }

  /**
    Continue is enabled exactly when details with a balance were fetched for an address
    that is valid, decimals come from the details or parse from the field, and the name
    and symbol, fetched or else typed, are not empty.
   */
  lemma CompleteForm(f: Form, networkId: string, valid: string -> bool)
    ensures Compile(f, networkId).Some? && IsDataComplete(Compile(f, networkId).value, valid) <==>
      && f.details.Some? && valid(f.details.value.address) && f.details.value.balance.Some?
      && (f.details.value.decimals.Some? || TypedDecimals(f.tokenDecimals).Some?)
      && OrElse(f.details.value.name, f.tokenName) != ""
      && OrElse(f.details.value.symbol, f.tokenSymbol) != ""
  {
  }

  /** Submitting the form: the payload of `onSubmit`, or `None` when nothing is submitted. */
  function Submit(f: Form, networkId: string, valid: string -> bool): (r: Option<Submission>)
    ensures r.Some? <==> Compile(f, networkId).Some? && IsDataComplete(Compile(f, networkId).value, valid)
    ensures r.Some? ==>
      var d := Compile(f, networkId).value;
      && r.value.address == d.address && r.value.name == d.name && r.value.symbol == d.symbol
      && r.value.networkId == networkId
      && ParseDecimal(r.value.decimals) == d.decimals
  {
    match Compile(f, networkId)
    case None => None
    case Some(d) =>
      if IsDataComplete(d, valid) then
        DecimalRoundTrip(d.decimals.value);
        Some(Submission(d.address, Show(d.decimals.value, 10), d.name, d.symbol, d.networkId))
      else None
  }

  /** Without fetched details there is no balance, so the form never submits. */
  lemma NoDetailsNoSubmit(f: Form, networkId: string, valid: string -> bool)
    requires f.details.None?
    ensures Compile(f, networkId).None? || !IsDataComplete(Compile(f, networkId).value, valid)
    ensures Submit(f, networkId, valid).None?
  {
  }

  /**
    Fetched details outlive the address they were fetched for: typing an address that is
    not valid starts no fetch, and the form still compiles, and submits, the details and
    the address of the earlier fetch.
   */
  lemma StaleDetails(f: Form, networkId: string, input: string, valid: string -> bool)
    requires f.details.Some? && !f.loading && !valid(ToLower(input))
    ensures var g := Effect(TypeAddress(f, input), valid);
      && g.tokenAddress == ToLower(input) && !g.loading && g.details == f.details
      && Compile(g, networkId) == Compile(f, networkId)
      && Submit(g, networkId, valid) == Submit(f, networkId, valid)
  {
  }

  /** Fetched non-empty name and symbol make the typed ones irrelevant. */
  lemma FetchedNamesWin(f: Form, networkId: string, name: string, symbol: string)
    requires f.details.Some? && f.details.value.name.Some? && f.details.value.name.value != ""
    requires f.details.value.symbol.Some? && f.details.value.symbol.value != ""
    ensures Compile(f.(tokenName := name, tokenSymbol := symbol), networkId) == Compile(f, networkId)
  {
  }

  /** The name input accepts text only while it is enabled: no fetched name, not loading, a valid address. */
  function TypeName(f: Form, input: string, valid: string -> bool): (f': Form)
    ensures f' == f || f' == f.(tokenName := input)
    ensures f' == f.(tokenName := input) <==>
      ((f.details.None? || OrElse(f.details.value.name, "") == "") && !f.loading && valid(f.tokenAddress))
      || f.tokenName == input
  {
    var fetched := if f.details.Some? then f.details.value.name else None;
    if OrElse(fetched, "") == "" && !f.loading && valid(f.tokenAddress) then f.(tokenName := input) else f
  }

  /** The symbol input, enabled under the same conditions as the name input. */
  function TypeSymbol(f: Form, input: string, valid: string -> bool): (f': Form)
    ensures f' == f || f' == f.(tokenSymbol := input)
    ensures f' == f.(tokenSymbol := input) <==>
      ((f.details.None? || OrElse(f.details.value.symbol, "") == "") && !f.loading && valid(f.tokenAddress))
      || f.tokenSymbol == input
  {
    var fetched := if f.details.Some? then f.details.value.symbol else None;
    if OrElse(fetched, "") == "" && !f.loading && valid(f.tokenAddress) then f.(tokenSymbol := input) else f
  }

  /**
    The decimals input: enabled without fetched decimals, when not loading and with a
    valid address; text that does not parse is dropped.
   */
  function TypeDecimals(f: Form, input: string, valid: string -> bool): (f': Form)
    ensures f' == f || f' == f.(tokenDecimals := input)
    ensures f' == f.(tokenDecimals := input) <==>
      ((f.details.None? || f.details.value.decimals.None?) && !f.loading && valid(f.tokenAddress)
         && TypedDecimals(input).Some?)
      || f.tokenDecimals == input
  {
    var fetched := f.details.Some? && f.details.value.decimals.Some?;
    if !fetched && !f.loading && valid(f.tokenAddress) && TypedDecimals(input).Some?
    then f.(tokenDecimals := input) else f
  }

  /** The typed decimals parse, so `compiledData` can be built. */
  predicate DecimalsParse(f: Form) {
    TypedDecimals(f.tokenDecimals).Some?
  }

  /** Every input event keeps the typed decimals parseable, and then the merge never throws. */
  lemma InputKeepsDecimals(f: Form, input: string, valid: string -> bool, result: Option<TokenDetails>, networkId: string)
    requires DecimalsParse(f)
    ensures DecimalsParse(TypeAddress(f, input)) && DecimalsParse(Blur(f)) && DecimalsParse(Effect(f, valid))
    ensures DecimalsParse(TypeName(f, input, valid)) && DecimalsParse(TypeSymbol(f, input, valid))
    ensures DecimalsParse(TypeDecimals(f, input, valid))
    ensures f.loading ==> DecimalsParse(FetchSettled(f, result))
    ensures Compile(f, networkId).Some?
  {
  }

  /**
    A form opened for a `wallet_watchAsset` request starts with the request's decimals as
    text. The data compiles exactly when that text parses: a whole number, or no decimals
    ("0"), compiles to the number the page asked for; a fraction such as 18.5 or a number
    rendered with an exponent such as 1e+21 makes building `compiledData` throw.
   */
  lemma RequestDecimalsParse(o: Bridge.AssetOptions, networkId: string)
    ensures var f := Init(Some(Bridge.TokenPayload(o)));
      && (Compile(f, networkId).Some? <==>
            o.decimals.None? || o.decimals.value.Whole? || TypedDecimals(o.decimals.value.text).Some?)
      && (o.decimals.None? ==> Compile(f, networkId).value.decimals == Some(0))
      && (o.decimals.Some? && o.decimals.value.Whole? ==>
            Compile(f, networkId).value.decimals == Some(o.decimals.value.n))
      && (o.decimals.Some? && o.decimals.value.Rendered? && TypedDecimals(o.decimals.value.text).Some? ==>
            Compile(f, networkId).value.decimals == TypedDecimals(o.decimals.value.text))
      && (o.decimals == Some(Bridge.Rendered("18.5")) || o.decimals == Some(Bridge.Rendered("1e+21")) ==>
            Compile(f, networkId).None?)
  {
    var t := Bridge.TokenPayload(o);
    if o.decimals.Some? {
      match o.decimals.value {
        case Whole(n) =>
          assert t.decimals.value != "";
        case Rendered(text) =>
          assert OrElse(t.decimals, "0") == text || text == "";
          assert TypedDecimals(text) == TypedDecimals(OrElse(t.decimals, "0"));
          assert !AllDigits("18.5", 10) by { assert "18.5"[2] == '.' && !IsDigit('.', 10); }
          assert !AllDigits("1e+21", 10) by { assert "1e+21"[1] == 'e' && !IsDigit('e', 10); }
      }
    }
  }
}
