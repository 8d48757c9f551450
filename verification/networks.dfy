/** Which chains a buyer pays on: names and ids a preference may use, the ordered
    list of ids it means, and the options of a challenge it picks. */
module Networks {
  import opened Types
  import opened Guard

  /** A chain's name and every id it is spelled with. */
  datatype Chain = Chain(name: string, ids: seq<string>)

  const NETWORK_NAMES: seq<Chain> := [
    Chain("base", ["eip155:8453"]),
    Chain("base-sepolia", ["eip155:84532"]),
    Chain("polygon", ["eip155:137"]),
    Chain("arbitrum", ["eip155:42161"]),
    Chain("monad", ["eip155:143"]),
    Chain("celo", ["eip155:42220"]),
    Chain("avalanche", ["eip155:43114"]),
    Chain("sei", ["eip155:1329"]),
    Chain("optimism", ["eip155:10"]),
    Chain("arc", ["eip155:5042"]),
    Chain("ink", ["eip155:57073"]),
    Chain("robinhood", ["eip155:4663"]),
    Chain("solana", ["solana:5eykt4UsFv8P8NJdTREpY1vzqKqZKvdp"]),
    Chain("solana-devnet", ["solana:EtWTRABZaYq6iMfeYKouRu166VU2xqa1"]),
    Chain("stellar", ["stellar:pubnet"]),
    Chain("algorand", ["algorand:wGHE2Pwdvd7S12BL5FaOP20EGYesN73k",
                       "algorand:wGHE2Pwdvd7S12BL5FaOP20EGYesN73ktiC1qzkkit8="])]

  predicate Spells(ids: seq<string>, p: string) {
    exists j :: 0 <= j < |ids| && Lower(ids[j]) == Lower(p)
  }

  function ByName(chains: seq<Chain>, name: string): (r: Option<seq<string>>)
    ensures r.Some? ==> exists c :: c in chains && c.name == name && r.value == c.ids
    ensures r.None? ==> forall c :: c in chains ==> c.name != name
  {
    if chains == [] then None
    else if chains[0].name == name then Some(chains[0].ids)
    else ByName(chains[1..], name)
  }

  function ById(chains: seq<Chain>, p: string): (r: Option<seq<string>>)
    ensures r.Some? ==> Spells(r.value, p) && exists c :: c in chains && r.value == c.ids
    ensures r.None? ==> forall c :: c in chains ==> !Spells(c.ids, p)
  {
    if chains == [] then None
    else if Spells(chains[0].ids, p) then Some(chains[0].ids)
    else ById(chains[1..], p)
  }

  predicate IsSpace(c: char) { c in " \t\n\r" || c == 11 as char || c == 12 as char }

  /** The spaces of ASCII: tab to carriage return, and the blank. */
  lemma SpacesExactly(c: char)
    ensures IsSpace(c) <==> 9 <= c as int <= 13 || c as int == 32
  {
  }

  function Trim(s: string): (t: string)
    ensures |t| <= |s|
    ensures t != "" ==> !IsSpace(t[0]) && !IsSpace(t[|t| - 1])
    decreases |s|
  {
    if s == "" then ""
    else if IsSpace(s[0]) then Trim(s[1..])
    else if IsSpace(s[|s| - 1]) then Trim(s[..|s| - 1])
    else s
  }

  /** The ids a preference names: a name's ids, an id's whole chain, else itself. */
  function NetworkIdsOf(chains: seq<Chain>, pref: string): seq<string> {
    var p := Trim(pref);
    if p == "" then []
    else if ByName(chains, Lower(p)).Some? then ByName(chains, Lower(p)).value
    else if ById(chains, p).Some? then ById(chains, p).value
    else [p]
  }

  function Split(raw: string): (parts: seq<string>)
    ensures parts != []
  {
    if raw == "" then [""]
    else
      var rest := Split(raw[1..]);
      if raw[0] == ',' then [""] + rest else [[raw[0]] + rest[0]] + rest[1..]
  }

  predicate AllSpaces(s: string) {
    forall k :: 0 <= k < |s| ==> IsSpace(s[k])
  }

  /** Trimming takes off spaces at both ends and nothing else. */
  lemma {:induction false} TrimExactly(s: string) returns (front: string, back: string)
    ensures s == front + Trim(s) + back && AllSpaces(front) && AllSpaces(back)
    decreases |s|
  {
    if s == "" {
      front, back := "", "";
    } else if IsSpace(s[0]) {
      front, back := TrimExactly(s[1..]);
      front := [s[0]] + front;
    } else if IsSpace(s[|s| - 1]) {
      front, back := TrimExactly(s[..|s| - 1]);
      back := back + [s[|s| - 1]];
    } else {
      front, back := "", "";
    }
  }

  function Joined(parts: seq<string>): string
    requires parts != []
  {
    if |parts| == 1 then parts[0] else parts[0] + "," + Joined(parts[1..])
  }

  lemma JoinedFirst(part: string, rest: seq<string>)
    requires rest != []
    ensures Joined([part] + rest) == part + "," + Joined(rest)
  {
    assert ([part] + rest)[1..] == rest;
  }

  lemma JoinedLonger(c: char, parts: seq<string>)
    requires parts != []
    ensures Joined([[c] + parts[0]] + parts[1..]) == [c] + Joined(parts)
  {
    var longer := [[c] + parts[0]] + parts[1..];
    assert |longer| == |parts| && longer[0] == [c] + parts[0] && longer[1..] == parts[1..];
  }

  /** The entries of the setting are what its commas separate. */
  lemma {:induction false} SplitExactly(raw: string)
    ensures Joined(Split(raw)) == raw && forall k :: 0 <= k < |Split(raw)| ==> ',' !in Split(raw)[k]
  {
    if raw == "" {
      assert Split(raw) == [""];
    } else {
      SplitExactly(raw[1..]);
      assert raw == [raw[0]] + raw[1..];
      if raw[0] == ',' {
        JoinedFirst("", Split(raw[1..]));
        assert "" + "," + raw[1..] == raw;
      } else {
        JoinedLonger(raw[0], Split(raw[1..]));
      }
    }
  }

  function IdsOfPart(chains: seq<Chain>, part: string): seq<string> {
    NetworkIdsOf(chains, Lower(Trim(part)))
  }

  /** `lists.flat()`. */
  function Flat(lists: seq<seq<string>>): seq<string> {
    if lists == [] then [] else lists[0] + Flat(lists[1..])
  }

  function IdLists(chains: seq<Chain>, parts: seq<string>): (r: seq<seq<string>>)
    ensures |r| == |parts| && forall k :: 0 <= k < |parts| ==> r[k] == IdsOfPart(chains, parts[k])
  {
    seq(|parts|, k requires 0 <= k < |parts| => IdsOfPart(chains, parts[k]))
  }

  function IdsOfAll(chains: seq<Chain>, parts: seq<string>): seq<string> {
    Flat(IdLists(chains, parts))
  }

  lemma {:induction false} InFlat(lists: seq<seq<string>>, id: string)
    ensures id in Flat(lists) <==> exists k :: 0 <= k < |lists| && id in lists[k]
  {
    if lists == [] {
    } else {
      InFlat(lists[1..], id);
      assert forall k :: 0 < k < |lists| ==> lists[k] == lists[1..][k - 1];
      assert forall k :: 0 <= k < |lists[1..]| ==> lists[1..][k] == lists[k + 1];
    }
  }

  lemma {:induction false} FlatParts(a: seq<seq<string>>, b: seq<seq<string>>)
    ensures Flat(a + b) == Flat(a) + Flat(b)
  {
    if a == [] {
      assert a + b == b;
    } else {
      assert (a + b)[1..] == a[1..] + b;
      FlatParts(a[1..], b);
    }
  }

  /** `[...new Set(ids)]`: the first of each. */
  function Distinct(ids: seq<string>): (r: seq<string>)
    ensures forall x :: x in r <==> x in ids
    ensures forall i, j :: 0 <= i < j < |r| ==> r[i] != r[j]
  {
    if ids == [] then []
    else
      var n := |ids| - 1;
      var r := Distinct(ids[..n]);
      if ids[n] in r then r else r + [ids[n]]
  }

  function ParseWith(chains: seq<Chain>, raw: string): seq<string> {
    Distinct(IdsOfAll(chains, Split(raw)))
  }

  function ParseNetworkPrefs(raw: string): seq<string> {
    ParseWith(NETWORK_NAMES, raw)
  }

  /** An entry of nothing but spaces names nothing. */
  lemma BlankNamesNothing(chains: seq<Chain>, part: string)
    requires Trim(part) == ""
    ensures IdsOfPart(chains, part) == []
  {
  }

  /** The list holds the ids its entries name and no other. */
  lemma ParsedExactly(chains: seq<Chain>, raw: string, id: string)
    ensures id in ParseWith(chains, raw)
            <==> exists k :: 0 <= k < |Split(raw)| && id in IdsOfPart(chains, Split(raw)[k])
  {
    InFlat(IdLists(chains, Split(raw)), id);
    assert forall k :: 0 <= k < |Split(raw)| ==> IdLists(chains, Split(raw))[k] == IdsOfPart(chains, Split(raw)[k]);
  }

  // ---- filtering a challenge's options ------------------------------------------------

  predicate OnNetwork(a: Accept, id: string) {
    Lower(if a.network.Some? then a.network.value else "") == Lower(id)
  }

  /** Positions of the options on one network, in the seller's order. */
  function Positions(list: seq<Accept>, id: string): (r: seq<nat>)
    ensures forall k :: 0 <= k < |r| ==> r[k] < |list|
  {
    if list == [] then []
    else
      var n := |list| - 1;
      Positions(list[..n], id) + if OnNetwork(list[n], id) then [n] else []
  }

  /** Exactly the positions of the options on the network, in rising order. */
  ghost predicate IsPositions(r: seq<nat>, list: seq<Accept>, id: string) {
    && (forall i :: i in r <==> 0 <= i < |list| && OnNetwork(list[i], id))
    && forall k, l :: 0 <= k < l < |r| ==> r[k] < r[l]
  }

  lemma {:induction false} PositionsMeaning(list: seq<Accept>, id: string)
    ensures IsPositions(Positions(list, id), list, id)
  {
    if list == [] {
    } else {
      var n := |list| - 1;
      PositionsMeaning(list[..n], id);
      OneMorePosition(Positions(list[..n], id), list[..n], list[n], id);
      assert list == list[..n] + [list[n]];
    }
  }

  lemma OneMorePosition(r: seq<nat>, list: seq<Accept>, a: Accept, id: string)
    requires IsPositions(r, list, id)
    ensures IsPositions(r + if OnNetwork(a, id) then [|list|] else [], list + [a], id)
  {
    assert forall k :: 0 <= k < |r| ==> r[k] in r;
  }

  function PickedPositions(list: seq<Accept>, prefs: seq<string>): (r: seq<nat>)
    ensures forall k :: 0 <= k < |r| ==> r[k] < |list|
  {
    if prefs == [] then []
    else PickedPositions(list, prefs[..|prefs| - 1]) + Positions(list, prefs[|prefs| - 1])
  }

  function At(list: seq<Accept>, at: seq<nat>): (r: seq<Accept>)
    requires forall k :: 0 <= k < |at| ==> at[k] < |list|
    ensures |r| == |at| && forall k :: 0 <= k < |at| ==> r[k] == list[at[k]]
  {
    seq(|at|, k requires 0 <= k < |at| => list[at[k]])
  }

  /** None where nothing matches: the payment is refused. */
  function FilterAccepts(list: seq<Accept>, prefs: seq<string>): Option<seq<Accept>> {
    if prefs == [] then Some(list)
    else
      var at := PickedPositions(list, prefs);
      if at == [] then None else Some(At(list, at))
  }

  // ---- every option once, in the order preferred ---------------------------------------

  /** No two preferences name the same network under different casing. */
  predicate Apart(prefs: seq<string>) {
    forall i, j :: 0 <= i < j < |prefs| ==> Lower(prefs[i]) != Lower(prefs[j])
  }

  /** The place of the preference an option is on. */
  predicate Ranked(list: seq<Accept>, prefs: seq<string>, i: nat, rank: nat) {
    i < |list| && rank < |prefs| && OnNetwork(list[i], prefs[rank])
  }

  /** The picked positions are exactly those on a preferred network, each once,
      by preference first and by the seller's order within one preference. */
  ghost predicate PickedInOrder(list: seq<Accept>, prefs: seq<string>, at: seq<nat>) {
    && (forall i :: i in at ==> i < |list| && exists rank :: Ranked(list, prefs, i, rank))
    && (forall i, rank :: Ranked(list, prefs, i, rank) ==> i in at)
    && forall k, l, rank, later ::
         0 <= k < l < |at| && Ranked(list, prefs, at[k], rank) && Ranked(list, prefs, at[l], later) ==>
         rank < later || (rank == later && at[k] < at[l])
  }

  lemma OneRank(list: seq<Accept>, prefs: seq<string>, i: nat, r1: nat, r2: nat)
    requires Apart(prefs) && Ranked(list, prefs, i, r1) && Ranked(list, prefs, i, r2)
    ensures r1 == r2
  {
  }

  lemma RankedInFront(list: seq<Accept>, prefs: seq<string>, i: nat, rank: nat)
    requires rank < |prefs| - 1
    ensures Ranked(list, prefs[..|prefs| - 1], i, rank) <==> Ranked(list, prefs, i, rank)
  {
  }

  /** Where the two parts of the picked positions meet. */
  lemma PickedParts(list: seq<Accept>, prefs: seq<string>, k: nat)
    requires prefs != [] && k < |PickedPositions(list, prefs)|
    ensures var n := |prefs| - 1;
            var before, here := PickedPositions(list, prefs[..n]), Positions(list, prefs[n]);
            if k < |before| then PickedPositions(list, prefs)[k] == before[k]
            else k - |before| < |here| && PickedPositions(list, prefs)[k] == here[k - |before|]
  {
  }

  lemma {:induction false} PickedHasRank(list: seq<Accept>, prefs: seq<string>, k: nat) returns (rank: nat)
    requires k < |PickedPositions(list, prefs)|
    ensures Ranked(list, prefs, PickedPositions(list, prefs)[k], rank)
  {
    var n := |prefs| - 1;
    var before := PickedPositions(list, prefs[..n]);
    PickedParts(list, prefs, k);
    if k < |before| {
      rank := PickedHasRank(list, prefs[..n], k);
      RankedInFront(list, prefs, before[k], rank);
    } else {
      PositionsMeaning(list, prefs[n]);
      assert PickedPositions(list, prefs)[k] in Positions(list, prefs[n]);
      rank := n;
    }
  }

  lemma {:induction false} RankedIsPicked(list: seq<Accept>, prefs: seq<string>, i: nat, rank: nat)
    requires Ranked(list, prefs, i, rank)
    ensures i in PickedPositions(list, prefs)
  {
    if rank < |prefs| - 1 {
      RankedInFront(list, prefs, i, rank);
      RankedIsPicked(list, prefs[..|prefs| - 1], i, rank);
    } else {
      PositionsMeaning(list, prefs[|prefs| - 1]);
    }
    FrontOrLast(list, prefs, i);
  }

  lemma FrontOrLast(list: seq<Accept>, prefs: seq<string>, i: nat)
    requires prefs != []
    ensures i in PickedPositions(list, prefs)
            <==> i in PickedPositions(list, prefs[..|prefs| - 1]) || i in Positions(list, prefs[|prefs| - 1])
  {
  }

  lemma LastRankLast(list: seq<Accept>, prefs: seq<string>, k: nat, rank: nat)
    requires Apart(prefs) && k < |PickedPositions(list, prefs)|
             && Ranked(list, prefs, PickedPositions(list, prefs)[k], rank)
    ensures if k < |PickedPositions(list, prefs[..|prefs| - 1])| then rank < |prefs| - 1 else rank == |prefs| - 1
  {
    var n := |prefs| - 1;
    PickedParts(list, prefs, k);
    if k < |PickedPositions(list, prefs[..n])| {
      var r := PickedHasRank(list, prefs[..n], k);
      RankedInFront(list, prefs, PickedPositions(list, prefs)[k], r);
      OneRank(list, prefs, PickedPositions(list, prefs)[k], r, rank);
    } else {
      PositionsMeaning(list, prefs[n]);
      assert PickedPositions(list, prefs)[k] in Positions(list, prefs[n]);
      OneRank(list, prefs, PickedPositions(list, prefs)[k], n, rank);
    }
  }

  lemma SameNetworkInOrder(list: seq<Accept>, prefs: seq<string>, k: nat, l: nat)
    requires prefs != [] && |PickedPositions(list, prefs[..|prefs| - 1])| <= k < l < |PickedPositions(list, prefs)|
    ensures PickedPositions(list, prefs)[k] < PickedPositions(list, prefs)[l]
  {
    var before, here := PickedPositions(list, prefs[..|prefs| - 1]), Positions(list, prefs[|prefs| - 1]);
    PositionsMeaning(list, prefs[|prefs| - 1]);
    assert here[k - |before|] < here[l - |before|];
  }

  lemma {:induction false} PickedByRank(list: seq<Accept>, prefs: seq<string>, k: nat, l: nat, rank: nat, later: nat)
    requires Apart(prefs) && k < l < |PickedPositions(list, prefs)|
    requires Ranked(list, prefs, PickedPositions(list, prefs)[k], rank)
             && Ranked(list, prefs, PickedPositions(list, prefs)[l], later)
    ensures rank < later || (rank == later && PickedPositions(list, prefs)[k] < PickedPositions(list, prefs)[l])
    decreases |prefs|
  {
    var front := prefs[..|prefs| - 1];
    LastRankLast(list, prefs, k, rank);
    LastRankLast(list, prefs, l, later);
    if l < |PickedPositions(list, front)| {
      PickedParts(list, prefs, k);
      PickedParts(list, prefs, l);
      RankedInFront(list, prefs, PickedPositions(list, prefs)[k], rank);
      RankedInFront(list, prefs, PickedPositions(list, prefs)[l], later);
      ApartInFront(prefs);
      PickedByRank(list, front, k, l, rank, later);
    } else if |PickedPositions(list, front)| <= k {
      SameNetworkInOrder(list, prefs, k, l);
    }
  }

  lemma ApartInFront(prefs: seq<string>)
    requires Apart(prefs) && prefs != []
    ensures Apart(prefs[..|prefs| - 1])
  {
  }

  lemma FilterPicks(list: seq<Accept>, prefs: seq<string>)
    requires Apart(prefs)
    ensures PickedInOrder(list, prefs, PickedPositions(list, prefs))
  {
    var at := PickedPositions(list, prefs);
    forall i | i in at ensures i < |list| && exists rank :: Ranked(list, prefs, i, rank) {
      var k :| 0 <= k < |at| && at[k] == i;
      var rank := PickedHasRank(list, prefs, k);
    }
    forall i, rank | Ranked(list, prefs, i, rank) ensures i in at { RankedIsPicked(list, prefs, i, rank); }
    forall k, l, rank, later | 0 <= k < l < |at| && Ranked(list, prefs, at[k], rank)
      && Ranked(list, prefs, at[l], later)
      ensures rank < later || (rank == later && at[k] < at[l])
    {
      PickedByRank(list, prefs, k, l, rank, later);
    }
  }

  /** Without preferences nothing is filtered. With some, the payment is refused exactly
      when no option's network is spelled, in whatever case, as one of them is. */
  lemma RefusedExactly(list: seq<Accept>, prefs: seq<string>)
    ensures prefs == [] ==> FilterAccepts(list, prefs) == Some(list)
    ensures prefs != [] ==>
              (FilterAccepts(list, prefs).None?
               <==> forall i, k :: 0 <= i < |list| && 0 <= k < |prefs| ==> Lower(Spelled(list[i])) != Lower(prefs[k]))
  {
    var at := PickedPositions(list, prefs);
    if at != [] {
      var k := PickedHasRank(list, prefs, 0);
      assert Lower(Spelled(list[at[0]])) == Lower(prefs[k]);
    }
    forall i, k | 0 <= i < |list| && 0 <= k < |prefs| && Lower(Spelled(list[i])) == Lower(prefs[k]) ensures at != [] {
      assert Ranked(list, prefs, i, k);
      RankedIsPicked(list, prefs, i, k);
    }
  }

  /** The text of an option's network, empty where it names none. */
  function Spelled(a: Accept): (text: string)
    ensures a.network == Some(text) || (a.network.None? && text == "")
  {
    if a.network.Some? then a.network.value else ""
  }

  lemma PickedOnce(list: seq<Accept>, prefs: seq<string>, at: seq<nat>, k: nat, l: nat)
    requires PickedInOrder(list, prefs, at) && k < l < |at|
    ensures at[k] != at[l]
  {
    assert at[k] in at;
    var rank: nat :| Ranked(list, prefs, at[k], rank);
  }

  // ---- the table tells chains apart -------------------------------------------------------

  /** The only place in the table a lower-cased id can have: its length and at most
      three of its characters say so. The last place is Algorand's second id. */
  function PlaceOfId(s: string): int {
    if |s| == 9 then 8
    else if |s| == 10 then if s[8] == '3' then 2 else 4
    else if |s| == 11 then if s[7] == '8' then 0 else if s[7] == '1' then 7 else if s[7] == '5' then 9 else 11
    else if |s| == 12 then
      if s[7] == '8' then 1 else if s[7] == '5' then 10
      else if s[8] == '3' then 6 else if s[9] == '1' then 3 else 5
    else if |s| == 14 then 14
    else if |s| == 39 then if s[7] == '5' then 12 else 13
    else if |s| == 41 then 15
    else 16
  }

  function PlaceOfName(s: string): int {
    if |s| == 3 then if s[0] == 's' then 7 else if s[0] == 'a' then 9 else 10
    else if |s| == 4 then if s[0] == 'b' then 0 else 5
    else if |s| == 5 then 4
    else if |s| == 6 then 12
    else if |s| == 7 then if s[0] == 'p' then 2 else 14
    else if |s| == 8 then if s[0] == 'o' then 8 else if s[1] == 'r' then 3 else 15
    else if |s| == 9 then if s[0] == 'a' then 6 else 11
    else if |s| == 12 then 1
    else 13
  }

  predicate ChainAt(c: Chain, i: int) {
    && PlaceOfName(c.name) == i && ':' !in c.name
    && forall k :: 0 <= k < |c.ids| ==>
           PlaceOfId(Lower(c.ids[k])) == i + k && ':' in Lower(c.ids[k]) && (k > 0 ==> i == 15)
  }

  predicate TableOk(chains: seq<Chain>) {
    |chains| == 16 && forall i :: 0 <= i < |chains| ==> ChainAt(chains[i], i)
  }

  lemma ColonIn(id: string, at: nat)
    requires at < |id| && id[at] == ':'
    ensures ':' in Lower(id)
  {
    assert Lower(id)[at] == ':';
  }

  lemma OneIdAt(c: Chain, i: int, at: int)
    requires |c.ids| == 1 && 0 <= at < |c.ids[0]| && c.ids[0][at] == ':'
    requires PlaceOfName(c.name) == i && ':' !in c.name && PlaceOfId(Lower(c.ids[0])) == i
    ensures ChainAt(c, i)
  {
    ColonIn(c.ids[0], at);
  }

  lemma EvmChainsAt()
    ensures ChainAt(Chain("base", ["eip155:8453"]), 0) && ChainAt(Chain("base-sepolia", ["eip155:84532"]), 1)
    ensures ChainAt(Chain("polygon", ["eip155:137"]), 2) && ChainAt(Chain("arbitrum", ["eip155:42161"]), 3)
  {
    OneIdAt(Chain("base", ["eip155:8453"]), 0, 6);
    OneIdAt(Chain("base-sepolia", ["eip155:84532"]), 1, 6);
    OneIdAt(Chain("polygon", ["eip155:137"]), 2, 6);
    OneIdAt(Chain("arbitrum", ["eip155:42161"]), 3, 6);
  }

  lemma MoreEvmChainsAt()
    ensures ChainAt(Chain("monad", ["eip155:143"]), 4) && ChainAt(Chain("celo", ["eip155:42220"]), 5)
    ensures ChainAt(Chain("avalanche", ["eip155:43114"]), 6) && ChainAt(Chain("sei", ["eip155:1329"]), 7)
  {
    OneIdAt(Chain("monad", ["eip155:143"]), 4, 6);
    OneIdAt(Chain("celo", ["eip155:42220"]), 5, 6);
    OneIdAt(Chain("avalanche", ["eip155:43114"]), 6, 6);
    OneIdAt(Chain("sei", ["eip155:1329"]), 7, 6);
  }

  lemma LastEvmChainsAt()
    ensures ChainAt(Chain("optimism", ["eip155:10"]), 8) && ChainAt(Chain("arc", ["eip155:5042"]), 9)
    ensures ChainAt(Chain("ink", ["eip155:57073"]), 10) && ChainAt(Chain("robinhood", ["eip155:4663"]), 11)
  {
    OneIdAt(Chain("optimism", ["eip155:10"]), 8, 6);
    OneIdAt(Chain("arc", ["eip155:5042"]), 9, 6);
    OneIdAt(Chain("ink", ["eip155:57073"]), 10, 6);
    OneIdAt(Chain("robinhood", ["eip155:4663"]), 11, 6);
  }

  lemma OtherChainsAt()
    ensures ChainAt(Chain("solana", ["solana:5eykt4UsFv8P8NJdTREpY1vzqKqZKvdp"]), 12)
    ensures ChainAt(Chain("solana-devnet", ["solana:EtWTRABZaYq6iMfeYKouRu166VU2xqa1"]), 13)
    ensures ChainAt(Chain("stellar", ["stellar:pubnet"]), 14)
  {
    OneIdAt(Chain("solana", ["solana:5eykt4UsFv8P8NJdTREpY1vzqKqZKvdp"]), 12, 6);
    OneIdAt(Chain("solana-devnet", ["solana:EtWTRABZaYq6iMfeYKouRu166VU2xqa1"]), 13, 6);
    OneIdAt(Chain("stellar", ["stellar:pubnet"]), 14, 7);
  }

  lemma AlgorandAt()
    ensures ChainAt(Chain("algorand",
                          ["algorand:wGHE2Pwdvd7S12BL5FaOP20EGYesN73k",
                           "algorand:wGHE2Pwdvd7S12BL5FaOP20EGYesN73ktiC1qzkkit8="]), 15)
  {
    var c := Chain("algorand",
                   ["algorand:wGHE2Pwdvd7S12BL5FaOP20EGYesN73k",
                    "algorand:wGHE2Pwdvd7S12BL5FaOP20EGYesN73ktiC1qzkkit8="]);
    ColonIn(c.ids[0], 8);
    ColonIn(c.ids[1], 8);
  }

  lemma NetworkTableOk()
    ensures TableOk(NETWORK_NAMES)
  {
    EvmChainsAt();
    MoreEvmChainsAt();
    LastEvmChainsAt();
    OtherChainsAt();
    AlgorandAt();
  }

  predicate InTable(chains: seq<Chain>, id: string) {
    exists i, k :: 0 <= i < |chains| && 0 <= k < |chains[i].ids| && chains[i].ids[k] == id
  }

  /** Two spellings of one id are one place of the table. */
  lemma SameId(chains: seq<Chain>, i: nat, k: nat, j: nat, l: nat)
    requires TableOk(chains) && i < |chains| && k < |chains[i].ids| && j < |chains| && l < |chains[j].ids|
    requires Lower(chains[i].ids[k]) == Lower(chains[j].ids[l])
    ensures i == j && k == l
  {
    assert ChainAt(chains[i], i) && ChainAt(chains[j], j);
  }

  // ---- a parsed preference list is apart -----------------------------------------------------

  lemma {:induction false} TrimLower(s: string)
    requires Lower(s) == s
    ensures Lower(Trim(s)) == Trim(s)
    decreases |s|
  {
    if s != "" {
      if IsSpace(s[0]) {
        assert forall k :: 0 <= k < |s[1..]| ==> s[1..][k] == s[k + 1] == Lower(s)[k + 1];
        assert Lower(s[1..]) == s[1..];
        TrimLower(s[1..]);
      } else if IsSpace(s[|s| - 1]) {
        var front := s[..|s| - 1];
        assert forall k :: 0 <= k < |front| ==> front[k] == s[k] == Lower(s)[k];
        assert Lower(front) == front;
        TrimLower(front);
      }
    }
  }

  /** An id of the table, or a lower-cased text no id of the table spells. */
  predicate Resolved(chains: seq<Chain>, id: string) {
    InTable(chains, id) || (Lower(id) == id && forall i :: 0 <= i < |chains| ==> !Spells(chains[i].ids, id))
  }

  lemma IdsResolved(chains: seq<Chain>, pref: string, id: string)
    requires Lower(pref) == pref && id in NetworkIdsOf(chains, pref)
    ensures Resolved(chains, id)
  {
    var p := Trim(pref);
    TrimLower(pref);
    if ByName(chains, Lower(p)).None? && ById(chains, p).None? {
      forall i | 0 <= i < |chains| ensures !Spells(chains[i].ids, id) { assert chains[i] in chains; }
    } else {
      var c :| c in chains && id in c.ids;
      var i :| 0 <= i < |chains| && chains[i] == c;
      var k :| 0 <= k < |c.ids| && c.ids[k] == id;
      assert chains[i].ids[k] == id;
    }
  }

  lemma LowerTwice(s: string)
    ensures Lower(Lower(s)) == Lower(s)
  {
  }

  lemma PartResolved(chains: seq<Chain>, part: string, id: string)
    requires id in IdsOfPart(chains, part)
    ensures Resolved(chains, id)
  {
    LowerTwice(Trim(part));
    IdsResolved(chains, Lower(Trim(part)), id);
  }

  lemma AllIdsResolved(chains: seq<Chain>, parts: seq<string>, id: string)
    requires id in IdsOfAll(chains, parts)
    ensures Resolved(chains, id)
  {
    InFlat(IdLists(chains, parts), id);
    var k :| 0 <= k < |parts| && id in IdLists(chains, parts)[k];
    PartResolved(chains, parts[k], id);
  }

  lemma KnownApart(chains: seq<Chain>, x: string, y: string)
    requires TableOk(chains) && InTable(chains, x) && Resolved(chains, y) && Lower(x) == Lower(y)
    ensures x == y
  {
    var i, k :| 0 <= i < |chains| && 0 <= k < |chains[i].ids| && chains[i].ids[k] == x;
    assert Spells(chains[i].ids, y);
    var j, l :| 0 <= j < |chains| && 0 <= l < |chains[j].ids| && chains[j].ids[l] == y;
    SameId(chains, i, k, j, l);
  }

  lemma ParsedPrefsApart(chains: seq<Chain>, raw: string)
    requires TableOk(chains)
    ensures Apart(ParseWith(chains, raw))
  {
    var prefs := ParseWith(chains, raw);
    forall i, j | 0 <= i < j < |prefs| ensures Lower(prefs[i]) != Lower(prefs[j]) {
      var x, y := prefs[i], prefs[j];
      assert x in prefs && y in prefs;
      AllIdsResolved(chains, Split(raw), x);
      AllIdsResolved(chains, Split(raw), y);
      if Lower(x) == Lower(y) {
        if InTable(chains, x) { KnownApart(chains, x, y); } else if InTable(chains, y) { KnownApart(chains, y, x); }
      }
    }
  }

  // ---- either spelling of a chain means the chain ------------------------------------------------

  /** The text names the chain: by its name, or by any of its ids, in any case. */
  predicate Names(text: string, c: Chain) {
    Lower(text) == c.name || Spells(c.ids, text)
  }

  lemma NamesExactly(text: string, c: Chain)
    ensures Names(text, c) <==> Lower(text) == c.name || exists id :: id in c.ids && Lower(id) == Lower(text)
  {
    if Spells(c.ids, text) {
      var j :| 0 <= j < |c.ids| && Lower(c.ids[j]) == Lower(text);
      assert c.ids[j] in c.ids;
    }
  }

  lemma NamesOneChain(chains: seq<Chain>, i: nat, j: nat, p: string)
    requires TableOk(chains) && i < |chains| && j < |chains| && Names(p, chains[i]) && Names(p, chains[j])
    ensures i == j && (Lower(p) == chains[i].name <==> !Spells(chains[i].ids, p))
  {
    assert ChainAt(chains[i], i) && ChainAt(chains[j], j);
    if Spells(chains[i].ids, p) && Spells(chains[j].ids, p) {
      var k :| 0 <= k < |chains[i].ids| && Lower(chains[i].ids[k]) == Lower(p);
      var l :| 0 <= l < |chains[j].ids| && Lower(chains[j].ids[l]) == Lower(p);
      SameId(chains, i, k, j, l);
    }
  }

  lemma NamedMeansItsIds(chains: seq<Chain>, i: nat, p: string)
    requires TableOk(chains) && i < |chains| && Trim(p) != "" && Names(Trim(p), chains[i])
    ensures NetworkIdsOf(chains, p) == chains[i].ids
  {
    var t := Trim(p);
    forall d | d in chains && Names(t, d) ensures d == chains[i] {
      var j :| 0 <= j < |chains| && chains[j] == d;
      NamesOneChain(chains, i, j, t);
    }
    assert chains[i] in chains;
    NamesOneChain(chains, i, i, t);
  }

  lemma PartIsIn(chains: seq<Chain>, parts: seq<string>, k: nat, id: string)
    requires k < |parts| && id in IdsOfPart(chains, parts[k])
    ensures id in IdsOfAll(chains, parts)
  {
    InFlat(IdLists(chains, parts), id);
    assert id in IdLists(chains, parts)[k];
  }

  lemma ParsedPick(chains: seq<Chain>, raw: string, list: seq<Accept>, k: nat, c: nat, i: nat, id: string)
    requires TableOk(chains) && k < |Split(raw)| && c < |chains|
    requires var p := Trim(Lower(Trim(Split(raw)[k]))); p != "" && Names(p, chains[c])
    requires i < |list| && id in chains[c].ids && OnNetwork(list[i], id)
    ensures i in PickedPositions(list, ParseWith(chains, raw))
  {
    var prefs := ParseWith(chains, raw);
    NamedMeansItsIds(chains, c, Lower(Trim(Split(raw)[k])));
    PartIsIn(chains, Split(raw), k, id);
    assert id in prefs;
    var rank :| 0 <= rank < |prefs| && prefs[rank] == id;
    RankedIsPicked(list, prefs, i, rank);
  }

  // ---- the order of the setting is the order of the list ----------------------------------------

  lemma {:induction false} DistinctGrows(a: seq<string>, b: seq<string>)
    ensures Distinct(a) <= Distinct(a + b)
    decreases |b|
  {
    if b == [] {
      assert a + b == a;
    } else {
      var n := |b| - 1;
      assert (a + b)[..|a + b| - 1] == a + b[..n];
      DistinctGrows(a, b[..n]);
    }
  }

  lemma IdsOfParts(chains: seq<Chain>, parts: seq<string>, m: nat)
    requires m <= |parts|
    ensures IdsOfAll(chains, parts) == IdsOfAll(chains, parts[..m]) + IdsOfAll(chains, parts[m..])
  {
    assert IdLists(chains, parts) == IdLists(chains, parts[..m]) + IdLists(chains, parts[m..]);
    FlatParts(IdLists(chains, parts[..m]), IdLists(chains, parts[m..]));
  }

  lemma InsideAndAfter(front: seq<string>, all: seq<string>, x: nat, y: nat)
    requires front <= all && x < |all| && y < |all| && all[x] in front && all[y] !in front
    requires forall i, j :: 0 <= i < j < |all| ==> all[i] != all[j]
    ensures x < y
  {
    var k :| 0 <= k < |front| && front[k] == all[x];
    assert all[k] == front[k];
  }

  /** An id named among the first `m` entries of the setting ranks before one that
      is named only later. */
  lemma EarlierNamedFirst(chains: seq<Chain>, raw: string, m: nat, x: nat, y: nat)
    requires m <= |Split(raw)| && x < |ParseWith(chains, raw)| && y < |ParseWith(chains, raw)|
    requires ParseWith(chains, raw)[x] in IdsOfAll(chains, Split(raw)[..m])
    requires ParseWith(chains, raw)[y] !in IdsOfAll(chains, Split(raw)[..m])
    ensures x < y
  {
    var prefs, first := ParseWith(chains, raw), IdsOfAll(chains, Split(raw)[..m]);
    IdsOfParts(chains, Split(raw), m);
    DistinctGrows(first, IdsOfAll(chains, Split(raw)[m..]));
    InsideAndAfter(Distinct(first), prefs, x, y);
  }

  lemma UnknownMeansItself(chains: seq<Chain>, pref: string)
    requires Trim(pref) != "" && forall c :: c in chains ==> !Names(Trim(pref), c)
    ensures NetworkIdsOf(chains, pref) == [Trim(pref)]
  {
  }

  /** A text that names no chain of the table is kept, trimmed and lower-cased. */
  lemma UnknownPassesThrough(chains: seq<Chain>, raw: string, k: nat)
    requires k < |Split(raw)|
    requires var p := Trim(Lower(Trim(Split(raw)[k]))); p != "" && forall c :: c in chains ==> !Names(p, c)
    ensures Trim(Lower(Trim(Split(raw)[k]))) in ParseWith(chains, raw)
  {
    var pref := Lower(Trim(Split(raw)[k]));
    UnknownMeansItself(chains, pref);
    PartIsIn(chains, Split(raw), k, Trim(pref));
  }

  lemma LowerRankFirst(list: seq<Accept>, prefs: seq<string>, x: nat, y: nat, k: nat, l: nat)
    requires Apart(prefs) && x < y < |prefs| && k < |PickedPositions(list, prefs)| && l < |PickedPositions(list, prefs)|
    requires Ranked(list, prefs, PickedPositions(list, prefs)[k], x)
             && Ranked(list, prefs, PickedPositions(list, prefs)[l], y)
    ensures k < l
  {
    if l < k { PickedByRank(list, prefs, l, k, y, x); }
  }

  /** So an option on a network named earlier is picked before one on a network
      named only later, wherever the seller listed them. */
  lemma EarlierNamedPickedFirst(chains: seq<Chain>, raw: string, list: seq<Accept>, m: nat, x: nat, y: nat)
    requires TableOk(chains) && m <= |Split(raw)| && x < |ParseWith(chains, raw)| && y < |ParseWith(chains, raw)|
    requires ParseWith(chains, raw)[x] in IdsOfAll(chains, Split(raw)[..m])
    requires ParseWith(chains, raw)[y] !in IdsOfAll(chains, Split(raw)[..m])
    ensures var prefs := ParseWith(chains, raw);
            var at := PickedPositions(list, prefs);
            forall k, l ::
              0 <= k < |at| && 0 <= l < |at| && Ranked(list, prefs, at[k], x) && Ranked(list, prefs, at[l], y) ==> k < l
  {
    var prefs := ParseWith(chains, raw);
    var at := PickedPositions(list, prefs);
    EarlierNamedFirst(chains, raw, m, x, y);
    ParsedPrefsApart(chains, raw);
    forall k, l | 0 <= k < |at| && 0 <= l < |at| && Ranked(list, prefs, at[k], x) && Ranked(list, prefs, at[l], y)
      ensures k < l
    {
      LowerRankFirst(list, prefs, x, y, k, l);
    }
  }

  /** From the setting to the options: what is picked is on a named network, each
      option once, in the order preferred, and something is picked unless the
      payment is refused. */
  lemma PreferencesOrder(raw: string, list: seq<Accept>)
    ensures var prefs := ParseNetworkPrefs(raw);
            var picked := FilterAccepts(list, prefs);
            && PickedInOrder(list, prefs, PickedPositions(list, prefs))
            && (prefs != [] && picked.Some? ==>
                picked.value == At(list, PickedPositions(list, prefs)) && picked.value != [])
  {
    NetworkTableOk();
    ParsedPrefsApart(NETWORK_NAMES, raw);
    FilterPicks(list, ParseNetworkPrefs(raw));
  }

  /** Every option on a chain the setting names, by name or by either spelling and
      in any case, is among them. */
  lemma PreferredChainPicked(raw: string, list: seq<Accept>, k: nat, c: nat, i: nat, id: string)
    requires k < |Split(raw)| && c < |NETWORK_NAMES|
    requires var p := Trim(Lower(Trim(Split(raw)[k]))); p != "" && Names(p, NETWORK_NAMES[c])
    requires i < |list| && id in NETWORK_NAMES[c].ids
    requires list[i].network.Some? && Lower(list[i].network.value) == Lower(id)
    ensures i in PickedPositions(list, ParseNetworkPrefs(raw))
    ensures FilterAccepts(list, ParseNetworkPrefs(raw)).Some?
  {
    NetworkTableOk();
    ParsedPick(NETWORK_NAMES, raw, list, k, c, i, id);
  }
}
