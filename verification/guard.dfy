/** The signing guard: which payment options a capped wallet may sign, and which
    signed payloads may leave. Amounts are whole units of 1e-7 USD. A JSON field
    is the text of its value, or None where the field is missing. */
module Guard {
  import opened Types
  import opened Validity

  datatype Version = NoVersion | V1 | V2 | OtherVersion

  datatype Timeout = NotFinite | Seconds(s: real)

  datatype Accept = Accept(network: Option<string>, asset: Option<string>,
                           amount: Option<string>, maxAmountRequired: Option<string>,
                           extraName: Option<string>, extraVersion: Option<string>,
                           maxTimeoutSeconds: Option<Timeout>)

  // ---- known assets --------------------------------------------------------------

  datatype Asset = Asset(network: string, asset: string, decimals: nat, name: Option<string>, version: Option<string>)

  /** The assets a buyer may price, with their decimals on chain. */
  const KNOWN_ASSETS: seq<Asset> := [
    Asset("eip155:8453", "0x833589fCD6eDb6E08f4c7C32D4f71b54bdA02913", 6, None, None),
    Asset("eip155:84532", "0x036CbD53842c5426634e7929541eC2318f3dCF7e", 6, None, None),
    Asset("eip155:137", "0x3c499c542cEF5E3811e1192ce70d8cC03d5c3359", 6, None, None),
    Asset("eip155:42161", "0xaf88d065e77c8cC2239327C5EDb3A432268e5831", 6, None, None),
    Asset("eip155:143", "0x754704Bc059F8C67012fEd69BC8A327a5aafb603", 6, None, None),
    Asset("eip155:42220", "0xcebA9300f2b948710d2653dD7B07f33A8B32118C", 6, None, None),
    Asset("eip155:43114", "0xB97EF9Ef8734C71904D8002F8b6Bc66Dd9c48a6E", 6, None, None),
    Asset("eip155:1329", "0xe15fC38F6D8c56aF07bbCBe3BAf5708A2Bf42392", 6, None, None),
    Asset("eip155:10", "0x0b2C639c533813f4Aa9D7837CAf62653d097Ff85", 6, None, None),
    Asset("eip155:5042", "0x3600000000000000000000000000000000000000", 6, None, None),
    Asset("eip155:57073", "0x2D270e6886d130D724215A266106e6832161EAEd", 6, Some("USDC"), Some("2")),
    Asset("eip155:4663", "0x5fc5360D0400a0Fd4f2af552ADD042D716F1d168", 6, None, None),
    Asset("solana:5eykt4UsFv8P8NJdTREpY1vzqKqZKvdp", "EPjFWdd5AufqSSqeM2qN1xzybapC8G4wEGGkZwyTDt1v", 6, None, None),
    Asset("solana:EtWTRABZaYq6iMfeYKouRu166VU2xqa1", "4zMMC9srt5Ri5X14GAgXhaHii3GnPAEERYPJgZJDncDU", 6, None, None),
    Asset("stellar:pubnet", "CCW67TSZV3SSS2HXMBQ5JFGCKJNXKZM7UQUWUZPUTHXSTZLEO7SJMI75", 7, None, None),
    Asset("algorand:wGHE2Pwdvd7S12BL5FaOP20EGYesN73k", "31566704", 6, None, None),
    Asset("algorand:wGHE2Pwdvd7S12BL5FaOP20EGYesN73ktiC1qzkkit8=", "31566704", 6, None, None)]

  predicate IsDigit(c: char) { '0' <= c <= '9' }

  predicate IsHex(c: char) { IsDigit(c) || 'a' <= c <= 'f' || 'A' <= c <= 'F' }

  function LowerChar(c: char): char {
    if 'A' <= c <= 'Z' then c - 'A' + 'a' else c
  }

  function Lower(s: string): (r: string)
    ensures |r| == |s|
  {
    seq(|s|, i requires 0 <= i < |s| => LowerChar(s[i]))
  }

  predicate IsEvmAddress(s: string) {
    |s| == 42 && s[..2] == "0x" && forall i :: 2 <= i < 42 ==> IsHex(s[i])
  }

  predicate SameAsset(a: string, b: string) {
    if IsEvmAddress(a) && IsEvmAddress(b) then Lower(a) == Lower(b) else a == b
  }

  /** Only the letters A to Z change. */
  lemma LowerExactly(s: string, k: nat)
    requires k < |s|
    ensures Lower(s)[k] as int == if 65 <= s[k] as int <= 90 then s[k] as int + 32 else s[k] as int
  {
  }

  /** `0x` and forty characters from 0 to 9, A to F or a to f. */
  lemma EvmAddressExactly(s: string)
    ensures IsEvmAddress(s)
            <==> && |s| == 42 && s[0] == '0' && s[1] == 'x'
                 && forall i :: 2 <= i < 42 ==>
                      48 <= s[i] as int <= 57 || 65 <= s[i] as int <= 70 || 97 <= s[i] as int <= 102
  {
    if |s| == 42 && s[0] == '0' && s[1] == 'x' { assert s[..2] == "0x"; }
    if IsEvmAddress(s) { assert s[..2][0] == '0' && s[..2][1] == 'x'; }
  }

  /** EVM addresses are the same in any case of their letters; other names of assets
      only when they are equal. */
  lemma SameAssetExactly(a: string, b: string)
    ensures IsEvmAddress(a) ==> SameAsset(a, Lower(a)) && SameAsset(Lower(a), a)
    ensures !IsEvmAddress(a) || !IsEvmAddress(b) ==> (SameAsset(a, b) <==> a == b)
    ensures SameAsset(a, b) ==> |a| == |b| && forall k :: 0 <= k < |a| ==> LowerChar(a[k]) == LowerChar(b[k])
  {
    forall k | 0 <= k < |a| && |a| == |b| && Lower(a) == Lower(b) ensures LowerChar(a[k]) == LowerChar(b[k]) {
      assert Lower(a)[k] == Lower(b)[k];
    }
  }

  function FindAsset(table: seq<Asset>, network: string, asset: string): (r: Option<Asset>)
    ensures r.Some? ==> r.value in table && r.value.network == network && SameAsset(r.value.asset, asset)
    ensures r.None? ==> forall e :: e in table && e.network == network ==> !SameAsset(e.asset, asset)
  {
    if table == [] then None
    else if table[0].network == network && SameAsset(table[0].asset, asset) then Some(table[0])
    else FindAsset(table[1..], network, asset)
  }

  /** The place of the entry found, which is the first that fits, or the end. */
  lemma {:induction false} FoundAt(table: seq<Asset>, network: string, asset: string) returns (at: nat)
    ensures at <= |table|
    ensures forall j :: 0 <= j < at ==> !(table[j].network == network && SameAsset(table[j].asset, asset))
    ensures at < |table| ==> table[at].network == network && SameAsset(table[at].asset, asset)
    ensures FindAsset(table, network, asset) == if at < |table| then Some(table[at]) else None
  {
    if table == [] || (table[0].network == network && SameAsset(table[0].asset, asset)) {
      at := 0;
    } else {
      var rest := FoundAt(table[1..], network, asset);
      at := rest + 1;
      assert forall j :: 0 < j < |table| ==> table[j] == table[1..][j - 1];
    }
  }

  predicate DomainMatches(e: Asset, a: Accept) {
    (e.name.None? && e.version.None?) || (a.extraName == e.name && a.extraVersion == e.version)
  }

  // ---- pricing one option -----------------------------------------------------------

  predicate Has(x: Option<string>) { x.Some? && x.value != "" }

  predicate AllDigits(s: string) { s != "" && forall i :: 0 <= i < |s| ==> IsDigit(s[i]) }

  function Digits(s: string): nat
    requires AllDigits(s)
  {
    var last := (s[|s| - 1] - '0') as nat;
    if |s| == 1 then last else Digits(s[..|s| - 1]) * 10 + last
  }

  /** The decimal text of a number. */
  function Decimal(n: nat): (s: string)
    ensures AllDigits(s)
  {
    if n < 10 then [n as char + '0'] else Decimal(n / 10) + [(n % 10) as char + '0']
  }

  /** Reading a number undoes writing it. */
  lemma {:induction false} DigitsInvertDecimal(n: nat)
    ensures Digits(Decimal(n)) == n
  {
    if n < 10 {
    } else {
      DigitsInvertDecimal(n / 10);
      assert Decimal(n)[..|Decimal(n)| - 1] == Decimal(n / 10);
    }
  }

  /** A sign, a point or any other character makes a text no amount. */
  lemma DigitsOnly(s: string, k: nat)
    requires k < |s| && !(s[k] in "0123456789")
    ensures !AllDigits(s)
  {
  }

  function AcceptAmount(a: Accept, version: Version): (r: Option<string>)
    ensures r.Some? ==> AllDigits(r.value)
  {
    if Has(a.amount) && Has(a.maxAmountRequired) && a.amount != a.maxAmountRequired then None
    else
      var raw := match version
                 case V1 => a.maxAmountRequired
                 case V2 => a.amount
                 case NoVersion => if Has(a.amount) then a.amount else a.maxAmountRequired
                 case OtherVersion => None;
      if Has(raw) && AllDigits(raw.value) then raw else None
  }

  /** The amount under each version: the field that version signs, a whole number,
      and not contradicted by the other field. Without a version, the field there is;
      under any other version, none. */
  lemma AmountExactly(a: Accept, x: string)
    ensures AcceptAmount(a, V1) == Some(x)
            <==> a.maxAmountRequired == Some(x) && AllDigits(x) && (Has(a.amount) ==> a.amount == Some(x))
    ensures AcceptAmount(a, V2) == Some(x)
            <==> a.amount == Some(x) && AllDigits(x) && (Has(a.maxAmountRequired) ==> a.maxAmountRequired == Some(x))
    ensures AcceptAmount(a, NoVersion) == Some(x)
            <==> AcceptAmount(a, V1) == Some(x) || AcceptAmount(a, V2) == Some(x)
    ensures AcceptAmount(a, OtherVersion).None?
  {
  }

  /** An option means one amount to every reader: versions that price it at all
      price it the same. */
  lemma OneAmountForEveryReader(a: Accept, x: Version, y: Version)
    requires AcceptAmount(a, x).Some? && AcceptAmount(a, y).Some?
    ensures AcceptAmount(a, x) == AcceptAmount(a, y)
  {
  }

  /** One base unit of an asset with `decimals` decimals, in 1e-7 USD. */
  function UnitPrice(decimals: nat): nat {
    if decimals == 6 then 10 else 1
  }

  predicate ValidityTooLong(a: Accept) {
    && a.maxTimeoutSeconds.Some?
    && (a.maxTimeoutSeconds.value.NotFinite? || a.maxTimeoutSeconds.value.s > MAX_VALIDITY_SECONDS as real)
  }

  /** An option asks to stay valid for too long when it names no number of seconds
      that can be read, or more than a day; one that names nothing does not. */
  lemma TooLongExactly(a: Accept)
    ensures ValidityTooLong(a)
            <==> a.maxTimeoutSeconds.Some? &&
                 (a.maxTimeoutSeconds.value == NotFinite || a.maxTimeoutSeconds.value.s > 86_400.0)
  {
  }

  // ---- quotes, caps and refusals -----------------------------------------------------------

  datatype Quote = Quote(max: Option<nat>, min: Option<nat>, unknown: nat)

  function Widen(q: Quote, usd: Option<nat>): Quote {
    if usd.None? then q.(unknown := q.unknown + 1)
    else Quote(if q.max.None? || usd.value > q.max.value then usd else q.max,
               if q.min.None? || usd.value < q.min.value then usd else q.min, q.unknown)
  }

  datatype Cap = Cap(limit: Option<nat>) {
    predicate Allows(usd: nat) { limit.Some? ==> usd <= limit.value }
  }

  function Timely(accepts: seq<Accept>): (r: seq<Accept>)
    ensures forall a :: a in r <==> a in accepts && !ValidityTooLong(a)
  {
    if accepts == [] then []
    else (if !ValidityTooLong(accepts[0]) then [accepts[0]] else []) + Timely(accepts[1..])
  }

  datatype Refusal = UnknownAsset | OverAllowance(usd: nat) | TooLong | SignedAmount | SignedValidity

  /** The options kept are the seller's, in the seller's order. */
  predicate Subsequence(a: seq<Accept>, b: seq<Accept>) {
    a == [] || (b != [] && if a[0] == b[0] then Subsequence(a[1..], b[1..]) else Subsequence(a, b[1..]))
  }

  lemma {:induction false} Skips(a: seq<Accept>, b: seq<Accept>)
    requires b != [] && Subsequence(a, b[1..])
    ensures Subsequence(a, b)
    decreases |b|, 0
  {
    if a != [] && a[0] == b[0] { DropsFirst(a, b[1..]); }
  }

  lemma {:induction false} DropsFirst(a: seq<Accept>, b: seq<Accept>)
    requires a != [] && Subsequence(a, b)
    ensures Subsequence(a[1..], b)
    decreases |b|, 1
  {
    if a[0] == b[0] {
      Skips(a[1..], b);
    } else {
      DropsFirst(a, b[1..]);
      Skips(a[1..], b);
    }
  }

  // ---- what a payload has signed ---------------------------------------------------------

  type byte = b: nat | b < 256

  /** What a created payload carries. `tokenTransfers` holds the data of each
      token-program instruction of a Solana transaction, None where the
      transaction cannot be decoded. */
  datatype Payload = Payload(authorizationValue: Option<string>, permittedAmount: Option<string>,
                             validBefore: Option<string>, deadline: Option<string>,
                             tokenTransfers: Option<seq<seq<byte>>>)

  datatype Signed = Unchecked | Moves(amount: nat, decimals: Option<nat>)

  const TRANSFER_CHECKED := 12

  function LittleEndian(bytes: seq<byte>): nat {
    if bytes == [] then 0 else bytes[0] + 256 * LittleEndian(bytes[1..])
  }

  function ToBytes(n: nat, width: nat): (r: seq<byte>)
    ensures |r| == width
  {
    if width == 0 then [] else [n % 256] + ToBytes(n / 256, width - 1)
  }

  function Pow256(n: nat): nat { if n == 0 then 1 else 256 * Pow256(n - 1) }

  /** Decoding undoes encoding for every amount that fits, and encoding undoes
      decoding, so no two transfers read as the same amount. */
  lemma {:induction false} DecodeInvertsEncode(n: nat, width: nat)
    requires n < Pow256(width)
    ensures LittleEndian(ToBytes(n, width)) == n
  {
    if width == 0 {
    } else {
      DecodeInvertsEncode(n / 256, width - 1);
      assert ToBytes(n, width)[1..] == ToBytes(n / 256, width - 1);
    }
  }

  lemma LowByte(b: byte, n: nat)
    ensures (b + 256 * n) % 256 == b && (b + 256 * n) / 256 == n
  {
  }

  lemma {:induction false} EncodeInvertsDecode(bytes: seq<byte>)
    ensures ToBytes(LittleEndian(bytes), |bytes|) == bytes && LittleEndian(bytes) < Pow256(|bytes|)
  {
    if bytes == [] {
    } else {
      EncodeInvertsDecode(bytes[1..]);
      LowByte(bytes[0], LittleEndian(bytes[1..]));
      assert bytes == [bytes[0]] + bytes[1..];
    }
  }

  /** The byte loop of the Solana reader: bytes 8 down to 1 of the instruction. */
  method DecodeAmount(d: seq<byte>) returns (amount: nat)
    requires |d| == 10
    ensures amount == LittleEndian(d[1..9])
  {
    amount := 0;
    var i := 8;
    while i >= 1
      invariant 0 <= i <= 8
      invariant amount == LittleEndian(d[i + 1..9])
    {
      assert d[i..9][1..] == d[i + 1..9];
      amount := amount * 256 + d[i];
      i := i - 1;
    }
  }

  function SolanaTransfer(p: Payload): Option<Signed> {
    if p.tokenTransfers.None? || |p.tokenTransfers.value| != 1 then None
    else
      var d := p.tokenTransfers.value[0];
      if |d| != 10 || d[0] != TRANSFER_CHECKED then None else Some(Moves(LittleEndian(d[1..9]), Some(d[9])))
  }

  predicate IsEvm(network: Option<string>) { network.Some? && "eip155:" <= network.value }

  predicate IsSolana(network: Option<string>) { network.Some? && "solana:" <= network.value }

  function SignedAmountOf(p: Payload, network: Option<string>): Option<Signed> {
    if IsEvm(network) then
      if p.authorizationValue.Some? == p.permittedAmount.Some? then None
      else
        var v := if p.authorizationValue.Some? then p.authorizationValue.value else p.permittedAmount.value;
        if AllDigits(v) then Some(Moves(Digits(v), None)) else None
    else if IsSolana(network) then SolanaTransfer(p)
    else Some(Unchecked)
  }

  function SignedExpiry(p: Payload): Expiry {
    var v := if p.validBefore.Some? then p.validBefore else p.deadline;
    if v.None? then NoExpiry
    else if AllDigits(v.value) && |v.value| <= 15 then At(Digits(v.value))
    else Unreadable
  }

  /** The one token instruction a Solana payload may hold. */
  function TransferOf(amount: nat, decimals: byte): seq<byte> {
    [12] + ToBytes(amount, 8) + [decimals]
  }

  lemma TransferRead(p: Payload, amount: nat, decimals: byte)
    requires amount < Pow256(8) && p.tokenTransfers == Some([TransferOf(amount, decimals)])
    ensures SolanaTransfer(p) == Some(Moves(amount, Some(decimals)))
  {
    var d := p.tokenTransfers.value[0];
    assert d[1..9] == ToBytes(amount, 8);
    DecodeInvertsEncode(amount, 8);
  }

  lemma ReadIsTransfer(d: seq<byte>)
    requires |d| == 10 && d[0] == 12
    ensures LittleEndian(d[1..9]) < Pow256(8) && d == TransferOf(LittleEndian(d[1..9]), d[9])
  {
    EncodeInvertsDecode(d[1..9]);
    assert d == [d[0]] + d[1..9] + [d[9]];
  }

  /** A Solana transaction is read exactly when it holds one token instruction and that
      one is a checked transfer of an amount; it is read as that amount. */
  lemma SolanaReadExactly(p: Payload, amount: nat, decimals: nat)
    ensures SolanaTransfer(p) == Some(Moves(amount, Some(decimals)))
            <==> amount < Pow256(8) && decimals < 256 && p.tokenTransfers == Some([TransferOf(amount, decimals)])
  {
    if amount < Pow256(8) && decimals < 256 && p.tokenTransfers == Some([TransferOf(amount, decimals)]) {
      TransferRead(p, amount, decimals);
    }
    if SolanaTransfer(p) == Some(Moves(amount, Some(decimals))) {
      ReadIsTransfer(p.tokenTransfers.value[0]);
      assert p.tokenTransfers.value == [p.tokenTransfers.value[0]];
    }
  }

  /** An EVM payload is read exactly when it carries one of the two amounts, and that
      one is a whole number. */
  lemma EvmReadExactly(p: Payload, network: string, amount: nat)
    requires "eip155:" <= network
    ensures SignedAmountOf(p, Some(network)) == Some(Moves(amount, None))
            <==> || (p.permittedAmount.None? && p.authorizationValue.Some? &&
                     AllDigits(p.authorizationValue.value) && Digits(p.authorizationValue.value) == amount)
                 || (p.authorizationValue.None? && p.permittedAmount.Some? &&
                     AllDigits(p.permittedAmount.value) && Digits(p.permittedAmount.value) == amount)
  {
  }

  /** The expiry a payload is held to: an authorization's, else a Permit2 deadline. A
      text that is not a whole number of at most 15 digits is one that cannot be read. */
  lemma ExpiryReadExactly(p: Payload)
    ensures SignedExpiry(p) == NoExpiry <==> p.validBefore.None? && p.deadline.None?
    ensures forall n: nat, text: string ::
              (p.validBefore == Some(text) || (p.validBefore.None? && p.deadline == Some(text))) ==>
              (SignedExpiry(p) == At(n) <==> AllDigits(text) && |text| <= 15 && Digits(text) == n)
  {
  }

  /** A buyer whose wallet signs only what it can price from a table of assets. */
  datatype Buyer = Buyer(assets: seq<Asset>) {
    function KnownAsset(network: Option<string>, asset: Option<string>): Option<Asset> {
      if network.None? || asset.None? || asset.value == "" then None
      else FindAsset(assets, network.value, asset.value)
    }

    function AcceptUsd(a: Accept, version: Version): Option<nat> {
      var raw := AcceptAmount(a, version);
      var e := KnownAsset(a.network, a.asset);
      if raw.None? || e.None? || !DomainMatches(e.value, a) then None
      else Some(Digits(raw.value) * UnitPrice(e.value.decimals))
    }

    /** Every asset has 6 or 7 decimals, so its base units are whole units of price. */
    predicate Exact() {
      forall e :: e in assets ==> e.decimals == 6 || e.decimals == 7
    }

    predicate Lists(e: Asset, a: Accept) {
      a.network == Some(e.network) && a.asset.Some? && a.asset.value != "" && SameAsset(e.asset, a.asset.value)
    }

    predicate SameDomain(e: Asset, a: Accept) {
      e.name.Some? || e.version.Some? ==> a.extraName == e.name && a.extraVersion == e.version
    }

    /** The entry at `i` is the first one of the table that lists the option's asset. */
    predicate ListedAt(a: Accept, i: int) {
      0 <= i < |assets| && Lists(assets[i], a) && forall j :: 0 <= j < i ==> !Lists(assets[j], a)
    }

    /** An option has a price exactly when its amount can be read, it names an asset of
        the table, and that entry's domain, if it has one, is the option's; and the
        price is the amount in that asset's units. */
    lemma PricedExactly(a: Accept, version: Version)
      requires Exact()
      ensures AcceptUsd(a, version).Some?
              <==> AcceptAmount(a, version).Some? && exists i :: ListedAt(a, i) && SameDomain(assets[i], a)
      ensures forall i :: ListedAt(a, i) && AcceptUsd(a, version).Some? ==>
                var amount := Digits(AcceptAmount(a, version).value);
                AcceptUsd(a, version).value == if assets[i].decimals == 7 then amount else 10 * amount
    {
      if a.network.Some? && a.asset.Some? && a.asset.value != "" {
        var at := FoundAt(assets, a.network.value, a.asset.value);
        assert at < |assets| ==> ListedAt(a, at);
      }
    }

    // ---- the quote of a challenge ------------------------------------------------------------

    predicate Quoted(accepts: seq<Accept>, version: Version, usd: nat) {
      exists i :: 0 <= i < |accepts| && AcceptUsd(accepts[i], version) == Some(usd)
    }

    function Unpriced(accepts: seq<Accept>, version: Version): nat {
      if accepts == [] then 0
      else
        var n := |accepts| - 1;
        Unpriced(accepts[..n], version) + if AcceptUsd(accepts[n], version).None? then 1 else 0
    }

    predicate NoPriceAt(accepts: seq<Accept>, version: Version, i: int) {
      0 <= i < |accepts| && AcceptUsd(accepts[i], version).None?
    }

    ghost function UnpricedAt(accepts: seq<Accept>, version: Version): set<int> {
      set i | 0 <= i < |accepts| && NoPriceAt(accepts, version, i)
    }

    lemma UnpricedLast(accepts: seq<Accept>, version: Version)
      requires accepts != []
      ensures var n := |accepts| - 1;
              UnpricedAt(accepts, version)
              == UnpricedAt(accepts[..n], version) + if NoPriceAt(accepts, version, n) then {n} else {}
    {
      var n := |accepts| - 1;
      forall i ensures NoPriceAt(accepts, version, i)
                       <==> NoPriceAt(accepts[..n], version, i) || (i == n && NoPriceAt(accepts, version, n))
      {
        if 0 <= i < n { assert accepts[..n][i] == accepts[i]; }
      }
    }

    /** The number of options without a price. */
    lemma {:induction false} UnpricedExactly(accepts: seq<Accept>, version: Version)
      ensures Unpriced(accepts, version) == |UnpricedAt(accepts, version)|
    {
      if accepts == [] {
      } else {
        var n := |accepts| - 1;
        UnpricedExactly(accepts[..n], version);
        UnpricedLast(accepts, version);
        assert n !in UnpricedAt(accepts[..n], version);
      }
    }

    /** What a quote of `accepts` is: the extreme prices and how many have none. */
    ghost predicate IsQuote(q: Quote, accepts: seq<Accept>, version: Version) {
      && q.unknown == Unpriced(accepts, version)
      && (q.min.Some? ==> Quoted(accepts, version, q.min.value))
      && (q.max.Some? ==> Quoted(accepts, version, q.max.value))
      && forall i :: 0 <= i < |accepts| ==> AcceptUsd(accepts[i], version).Some? ==>
           q.min.Some? && q.max.Some? && q.min.value <= AcceptUsd(accepts[i], version).value <= q.max.value
    }

    lemma QuoteGrows(q: Quote, accepts: seq<Accept>, a: Accept, version: Version)
      requires IsQuote(q, accepts, version)
      ensures IsQuote(Widen(q, AcceptUsd(a, version)), accepts + [a], version)
    {
      var all := accepts + [a];
      assert all[..|accepts|] == accepts && all[|accepts|] == a;
      forall usd: nat | Quoted(accepts, version, usd) ensures Quoted(all, version, usd) {
        var i :| 0 <= i < |accepts| && AcceptUsd(accepts[i], version) == Some(usd);
        assert AcceptUsd(all[i], version) == Some(usd);
      }
      if AcceptUsd(a, version).Some? { assert Quoted(all, version, AcceptUsd(a, version).value); }
    }

    method QuoteOf(accepts: seq<Accept>, version: Version) returns (q: Quote)
      ensures IsQuote(q, accepts, version)
    {
      q := Quote(None, None, 0);
      for i := 0 to |accepts|
        invariant IsQuote(q, accepts[..i], version)
      {
        QuoteGrows(q, accepts[..i], accepts[i], version);
        assert accepts[..i] + [accepts[i]] == accepts[..i + 1];
        var usd := AcceptUsd(accepts[i], version);
        if usd.None? {
          q := q.(unknown := q.unknown + 1);
        } else {
          if q.max.None? || usd.value > q.max.value { q := q.(max := usd); }
          if q.min.None? || usd.value < q.min.value { q := q.(min := usd); }
        }
      }
      assert accepts[..|accepts|] == accepts;
    }

    // ---- the policy: which options the client may choose from -----------------------------

    predicate InCap(a: Accept, version: Version, cap: Cap) {
      AcceptUsd(a, version).Some? && cap.Allows(AcceptUsd(a, version).value)
    }

    function Priced(accepts: seq<Accept>, version: Version, cap: Cap): (r: seq<Accept>)
      ensures forall a :: a in r <==> a in accepts && InCap(a, version, cap)
    {
      if accepts == [] then []
      else (if InCap(accepts[0], version, cap) then [accepts[0]] else []) + Priced(accepts[1..], version, cap)
    }

    /** Some option could be paid but for the time it asks to stay valid. */
    predicate OnlyTooLong(accepts: seq<Accept>, version: Version, cap: Cap) {
      && (exists i :: 0 <= i < |accepts| && InCap(accepts[i], version, cap))
      && forall i :: 0 <= i < |accepts| && InCap(accepts[i], version, cap) ==> ValidityTooLong(accepts[i])
    }

    predicate NonePriced(accepts: seq<Accept>, version: Version) {
      forall i :: 0 <= i < |accepts| ==> AcceptUsd(accepts[i], version).None?
    }

    /** `usd` is the lowest price offered. */
    predicate Cheapest(accepts: seq<Accept>, version: Version, usd: nat) {
      && Quoted(accepts, version, usd)
      && forall i :: 0 <= i < |accepts| && AcceptUsd(accepts[i], version).Some? ==>
             usd <= AcceptUsd(accepts[i], version).value
    }

    lemma NoneKept(accepts: seq<Accept>, version: Version, cap: Cap)
      requires Timely(Priced(accepts, version, cap)) == []
      ensures Priced(accepts, version, cap) != [] ==> OnlyTooLong(accepts, version, cap)
      ensures Priced(accepts, version, cap) == [] ==>
                forall i :: 0 <= i < |accepts| ==> !InCap(accepts[i], version, cap)
    {
      var priced := Priced(accepts, version, cap);
      forall i | 0 <= i < |accepts| && InCap(accepts[i], version, cap)
        ensures accepts[i] in priced && ValidityTooLong(accepts[i])
      {
        assert accepts[i] in priced && accepts[i] !in Timely(priced);
      }
      if priced != [] { assert priced[0] in priced; }
    }

    lemma SomeKept(accepts: seq<Accept>, version: Version, cap: Cap)
      requires Timely(Priced(accepts, version, cap)) != []
      ensures !OnlyTooLong(accepts, version, cap) && !NonePriced(accepts, version)
    {
      var priced := Priced(accepts, version, cap);
      var a := Timely(priced)[0];
      assert a in Timely(priced) && a in priced;
      var i :| 0 <= i < |accepts| && accepts[i] == a;
    }

    /** What the client may choose from: the options that are priced, in cap and in
        time, when there are any; otherwise the reason there are none. */
    method Policy(accepts: seq<Accept>, version: Version, cap: Cap) returns (r: Result<seq<Accept>, Refusal>)
      ensures r.Ok? ==> r.value == Timely(Priced(accepts, version, cap)) && r.value != []
      ensures r == Err(TooLong) <==> OnlyTooLong(accepts, version, cap)
      ensures r == Err(UnknownAsset) <==> NonePriced(accepts, version)
      ensures r.Err? && r.error.OverAllowance? ==> !cap.Allows(r.error.usd) && Cheapest(accepts, version, r.error.usd)
      ensures r.Err? ==> !r.error.SignedAmount? && !r.error.SignedValidity?
    {
      var priced := Priced(accepts, version, cap);
      var kept := Timely(priced);
      if kept != [] {
        SomeKept(accepts, version, cap);
        return Ok(kept);
      }
      NoneKept(accepts, version, cap);
      if priced != [] { return Err(TooLong); }
      var q := QuoteOf(accepts, version);
      if q.min.Some? { return Err(OverAllowance(q.min.value)); }
      return Err(UnknownAsset);
    }

    lemma {:induction false} KeptInOrder(accepts: seq<Accept>, version: Version, cap: Cap)
      ensures Subsequence(Timely(Priced(accepts, version, cap)), accepts)
    {
      if accepts == [] {
      } else {
        KeptInOrder(accepts[1..], version, cap);
        var rest := Priced(accepts[1..], version, cap);
        if InCap(accepts[0], version, cap) {
          assert Priced(accepts, version, cap) == [accepts[0]] + rest;
          assert Priced(accepts, version, cap)[1..] == rest;
          if ValidityTooLong(accepts[0]) {
            assert Timely(Priced(accepts, version, cap)) == Timely(rest);
            Skips(Timely(rest), accepts);
          } else {
            assert Timely(Priced(accepts, version, cap))[1..] == Timely(rest);
          }
        } else {
          assert Priced(accepts, version, cap) == rest;
          Skips(Timely(rest), accepts);
        }
      }
    }

    // ---- the hooks around signing ------------------------------------------------------------

    function BeforeSigning(a: Accept, version: Version, cap: Cap): Option<Refusal> {
      var usd := AcceptUsd(a, version);
      if usd.None? then Some(UnknownAsset)
      else if !cap.Allows(usd.value) then Some(OverAllowance(usd.value))
      else if ValidityTooLong(a) then Some(TooLong)
      else None
    }

    predicate AmountProblem(p: Payload, a: Accept, version: Version, cap: Cap) {
      var expected := AcceptAmount(a, version);
      var e := KnownAsset(a.network, a.asset);
      var signed := SignedAmountOf(p, a.network);
      || expected.None?
      || signed.None?
      || (signed.value.Moves?
          && (|| signed.value.amount != Digits(expected.value)
              || (signed.value.decimals.Some? && e.Some? && signed.value.decimals.value != e.value.decimals)
              || (cap.limit.Some? && (e.None? || signed.value.amount * UnitPrice(e.value.decimals) > cap.limit.value))))
    }

    function AfterSigning(p: Payload, a: Accept, version: Version, cap: Cap, now: int): Option<Refusal> {
      if AmountProblem(p, a, version, cap) then Some(SignedAmount)
      else if ValidityProblem(SignedExpiry(p), MAX_VALIDITY_SECONDS, now) then Some(SignedValidity)
      else None
    }

    /** Why the hook before signing refuses. */
    lemma HookReasons(a: Accept, version: Version, cap: Cap)
      ensures BeforeSigning(a, version, cap) == Some(UnknownAsset) <==> AcceptUsd(a, version).None?
      ensures forall usd: nat :: BeforeSigning(a, version, cap) == Some(OverAllowance(usd))
                                 <==> AcceptUsd(a, version) == Some(usd) && !cap.Allows(usd)
      ensures BeforeSigning(a, version, cap) == Some(TooLong)
              <==> AcceptUsd(a, version).Some? && cap.Allows(AcceptUsd(a, version).value) && ValidityTooLong(a)
      ensures BeforeSigning(a, version, cap).None?
              <==> AcceptUsd(a, version).Some? && cap.Allows(AcceptUsd(a, version).value) && !ValidityTooLong(a)
    {
    }

    /** Why the hook after signing refuses: the amount comes first. */
    lemma SendReasons(p: Payload, a: Accept, version: Version, cap: Cap, now: int)
      ensures AfterSigning(p, a, version, cap, now) == Some(SignedAmount) <==> AmountProblem(p, a, version, cap)
      ensures AfterSigning(p, a, version, cap, now) == Some(SignedValidity)
              <==> !AmountProblem(p, a, version, cap) && ValidityProblem(SignedExpiry(p), 86_400, now)
      ensures AfterSigning(p, a, version, cap, now).None?
              <==> !AmountProblem(p, a, version, cap) && !ValidityProblem(SignedExpiry(p), 86_400, now)
    {
    }

    // ---- end to end --------------------------------------------------------------------------

    /** A payload leaves when the client chose an option the policy kept, the hook
        before signing passed it and the hook after signing passed what was
        signed. The allowance is read anew each time. */
    predicate Leaves(accepts: seq<Accept>, version: Version, a: Accept, p: Payload, atPolicy: Cap, atSign: Cap,
                     atSend: Cap, now: int)
    {
      && a in Timely(Priced(accepts, version, atPolicy))
      && BeforeSigning(a, version, atSign).None?
      && AfterSigning(p, a, version, atSend, now).None?
    }

    /** What a payload that leaves has signed. */
    lemma GuardSound(accepts: seq<Accept>, version: Version, a: Accept, p: Payload, atPolicy: Cap, atSign: Cap,
                     atSend: Cap, now: int)
      requires Leaves(accepts, version, a, p, atPolicy, atSign, atSend, now)
      ensures a in accepts && AcceptUsd(a, version).Some?
      ensures atPolicy.Allows(AcceptUsd(a, version).value) && atSign.Allows(AcceptUsd(a, version).value)
      ensures exists e ::
                e in assets && a.network == Some(e.network) && SameAsset(e.asset, a.asset.value) && DomainMatches(e, a)
      // the field this version's signer signs, and no other reading of the option
      ensures version.V1? ==> Has(a.maxAmountRequired) && (Has(a.amount) ==> a.amount == a.maxAmountRequired)
      ensures version.V2? ==> Has(a.amount) && (Has(a.maxAmountRequired) ==> a.amount == a.maxAmountRequired)
      ensures IsEvm(a.network) || IsSolana(a.network) ==>
                var signed := SignedAmountOf(p, a.network);
                var raw := AcceptAmount(a, version);
                var e := KnownAsset(a.network, a.asset).value;
                && signed.Some? && signed.value.Moves? && signed.value.amount == Digits(raw.value)
                && (version.V1? ==> raw == a.maxAmountRequired) && (version.V2? ==> raw == a.amount)
                && (signed.value.decimals.Some? ==> signed.value.decimals.value == e.decimals)
                && signed.value.amount * UnitPrice(e.decimals) == AcceptUsd(a, version).value
                && atSend.Allows(AcceptUsd(a, version).value)
      // and what the payload itself carries
      ensures "eip155:" <= a.network.value ==>
                && p.authorizationValue.Some? != p.permittedAmount.Some?
                && var text := if p.authorizationValue.Some? then p.authorizationValue.value
                     else p.permittedAmount.value;
                   AllDigits(text) && Digits(text) == Digits(AcceptAmount(a, version).value)
      ensures "solana:" <= a.network.value ==>
                && Digits(AcceptAmount(a, version).value) < Pow256(8)
                     && KnownAsset(a.network, a.asset).value.decimals < 256
                && p.tokenTransfers == Some([TransferOf(Digits(AcceptAmount(a, version).value),
                                                        KnownAsset(a.network, a.asset).value.decimals)])
      ensures a.maxTimeoutSeconds.Some? ==>
                a.maxTimeoutSeconds.value.Seconds? && a.maxTimeoutSeconds.value.s <= 86_400.0
      ensures !SignedExpiry(p).Unreadable?
      ensures SignedExpiry(p).At? ==>
                SignedExpiry(p).seconds * 1000 <= now + (MAX_VALIDITY_SECONDS + VALIDITY_CLOCK_SLACK_SECONDS) * 1000
    {
      assert a in Priced(accepts, version, atPolicy);
      if "solana:" <= a.network.value {
        assert !("eip155:" <= a.network.value) by { assert a.network.value[0] == 's'; }
        assert SignedAmountOf(p, a.network) == SolanaTransfer(p);
        SolanaReadExactly(p, Digits(AcceptAmount(a, version).value), KnownAsset(a.network, a.asset).value.decimals);
      }
      var e := KnownAsset(a.network, a.asset).value;
      assert e in assets && a.network == Some(e.network);
      assert now / 1000 * 1000 <= now;
    }

    /** So the base units that were signed, scaled by their asset's own decimals,
        are at most the allowance. */
    lemma SignedUnitsWithinAllowance(accepts: seq<Accept>, version: Version, a: Accept, p: Payload,
                                     atPolicy: Cap, atSign: Cap, atSend: Cap, now: int)
      requires Exact() && Leaves(accepts, version, a, p, atPolicy, atSign, atSend, now)
               && (IsEvm(a.network) || IsSolana(a.network))
      ensures a in accepts && SignedAmountOf(p, a.network).Some? && SignedAmountOf(p, a.network).value.Moves?
      ensures exists e :: e in assets && a.network == Some(e.network) &&
                a.asset.Some? && SameAsset(e.asset, a.asset.value) &&
                atSend.Allows(if e.decimals == 7 then SignedAmountOf(p, a.network).value.amount
                              else 10 * SignedAmountOf(p, a.network).value.amount)
    {
      GuardSound(accepts, version, a, p, atPolicy, atSign, atSend, now);
      var e := KnownAsset(a.network, a.asset).value;
      assert e in assets && SameAsset(e.asset, a.asset.value);
    }

    /** And no honest payload is refused: one that signs the option's own amount,
        with the asset's decimals and an expiry inside the ceiling, passes the
        hook after signing whenever the allowance still covers it. */
    lemma HonestPayloadPasses(a: Accept, version: Version, p: Payload, atSign: Cap, atSend: Cap, now: int)
      requires BeforeSigning(a, version, atSign).None? && atSend.Allows(AcceptUsd(a, version).value)
      requires var signed := SignedAmountOf(p, a.network);
               signed.Some? && (signed.value.Moves? ==>
                 && signed.value.amount == Digits(AcceptAmount(a, version).value)
                 && (signed.value.decimals.Some? ==>
                     signed.value.decimals.value == KnownAsset(a.network, a.asset).value.decimals))
      requires SignedExpiry(p).At? ==> SignedExpiry(p).seconds <= now / 1000 + MAX_VALIDITY_SECONDS
      requires !SignedExpiry(p).Unreadable?
      ensures AfterSigning(p, a, version, atSend, now).None?
    {
    }
  }

  /** The buyer as shipped: the table of known assets. */
  const BUYER := Buyer(KNOWN_ASSETS)

  lemma TableDecimals(e: Asset)
    requires e in KNOWN_ASSETS
    ensures e.decimals == 6 || e.decimals == 7
  {
  }

  /** Its assets can all be priced exactly in 1e-7 USD. */
  lemma ShippedTableIsExact()
    ensures BUYER.Exact()
  {
    forall e | e in BUYER.assets ensures e.decimals == 6 || e.decimals == 7 { TableDecimals(e); }
  }
}
