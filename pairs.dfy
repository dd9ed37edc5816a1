/** The tradable-pairs filter behind `GET /pairs`
    (functions/src/controller/pairs.ts). From a whitelist, an enforce-list
    and the provider's coin definitions it builds, for every deposit symbol,
    the receive symbols it can be traded into. */
module Pairs {
  import opened JsBuiltins
  import opened SwftTypes

  /** A pair must contain at least one symbol from this list. */
  const EnforceList: seq<string> := ["ETP"]

  /** The symbols offered at all, in output order. */
  const Whitelist: seq<string> := ["ETP", "BTC", "ETH", "BCH", "XRP", "EOS", "LTC", "XMR", "ETC"]

  /** Coin definitions keyed by coin code. */
  type Definitions = map<string, SwftPairDefinition>

  /** The output: deposit symbol to the receive symbols, in order. */
  type PairTable = map<string, seq<string>>

  /** A JavaScript value, as far as the comparison with `undefined` needs it. */
  datatype JsValue = Undefined | Number(n: int)

  /** lodash `keyBy(list, 'coinCode')`: every listed code is a key, mapped
      to a definition of that code (the last one, see `KeyByLastWins`). */
  function KeyByCoinCode(list: seq<SwftPairDefinition>): (defs: Definitions)
    ensures forall code :: code in defs <==> exists i :: 0 <= i < |list| && list[i].coinCode == code
    ensures forall code :: code in defs ==> defs[code].coinCode == code
  {
    if list == [] then map[]
    else
      var last := list[|list| - 1];
      var defs := KeyByCoinCode(list[..|list| - 1]);
      assert forall i :: 0 <= i < |list| - 1 ==> list[..|list| - 1][i] == list[i];
      defs[last.coinCode := last]
  }

  /** When a code is listed more than once, the later definition wins. */
  lemma {:induction false} KeyByLastWins(list: seq<SwftPairDefinition>, i: nat)
    requires i < |list|
    requires forall j :: i < j < |list| ==> list[j].coinCode != list[i].coinCode
    ensures KeyByCoinCode(list)[list[i].coinCode] == list[i]
  {
    if i < |list| - 1 {
      var pre := list[..|list| - 1];
      assert pre[i] == list[i];
      KeyByLastWins(pre, i);
    }
  }

  /** The coins a definition says it cannot be paired with: a plain split
      on commas, nothing trimmed. */
  function Blacklist(definition: SwftPairDefinition): seq<string>
  {
    Split(definition.noSupportCoin, ',')
  }

  /** The test a receive symbol passes under an enforced deposit symbol. */
  predicate EnforcedAdmits(to: string, from: string, blacklist: seq<string>, defs: Definitions)
  {
    && to != from
    && IndexOf(blacklist, to) == -1
    && to in defs
    && defs[to].isSupportAdvanced == "Y"
  }

  /** The test a receive symbol passes under any other deposit symbol:
      `blacklist.indexOf(to) !== undefined`, which holds for every symbol. */
  predicate FallbackAdmits(to: string, blacklist: seq<string>)
  {
    Number(IndexOf(blacklist, to)) != Undefined
  }

  /** The symbols of `tos`, in order, that pass `EnforcedAdmits`. */
  function EnforcedTargets(tos: seq<string>, from: string, blacklist: seq<string>, defs: Definitions): seq<string>
  {
    if tos == [] then []
    else
      var earlier := EnforcedTargets(tos[..|tos| - 1], from, blacklist, defs);
      var to := tos[|tos| - 1];
      if EnforcedAdmits(to, from, blacklist, defs) then earlier + [to] else earlier
  }

  /** The symbols of `tos`, in order, that pass `FallbackAdmits`. */
  function FallbackTargets(tos: seq<string>, blacklist: seq<string>): seq<string>
  {
    if tos == [] then []
    else
      var earlier := FallbackTargets(tos[..|tos| - 1], blacklist);
      var to := tos[|tos| - 1];
      if FallbackAdmits(to, blacklist) then earlier + [to] else earlier
  }

  /** The `tradable` list built for a deposit symbol that has a definition:
      the admitted whitelist symbols when it is enforced, otherwise the
      admitted enforce-list symbols. */
  function Tradable(from: string, whitelist: seq<string>, enforce: seq<string>, defs: Definitions): seq<string>
    requires from in defs
  {
    var blacklist := Blacklist(defs[from]);
    if IndexOf(enforce, from) != -1 then EnforcedTargets(whitelist, from, blacklist, defs)
    else FallbackTargets(enforce, blacklist)
  }

  /** The table after the outer loop has visited the deposit symbols `froms`. */
  function Emitted(froms: seq<string>, whitelist: seq<string>, enforce: seq<string>, defs: Definitions): PairTable
  {
    if froms == [] then map[]
    else
      var table := Emitted(froms[..|froms| - 1], whitelist, enforce, defs);
      var from := froms[|froms| - 1];
      if from in defs && |Tradable(from, whitelist, enforce, defs)| > 0
      then table[from := Tradable(from, whitelist, enforce, defs)]
      else table
  }

  /** The whole table the handler answers with. */
  function PairMap(whitelist: seq<string>, enforce: seq<string>, defs: Definitions): PairTable
  {
    Emitted(whitelist, whitelist, enforce, defs)
  }

  /** The inner loop under an enforced deposit symbol: every whitelist
      symbol that passes the four tests is pushed, in whitelist order. */
  method CollectEnforced(whitelist: seq<string>, fromSymbol: string, blacklist: seq<string>, definitions: Definitions)
    returns (tradable: seq<string>)
    ensures tradable == EnforcedTargets(whitelist, fromSymbol, blacklist, definitions)
  {
    tradable := [];
    for j := 0 to |whitelist|
      invariant tradable == EnforcedTargets(whitelist[..j], fromSymbol, blacklist, definitions)
    {
      var toSymbol := whitelist[j];
      assert whitelist[..j + 1][..j] == whitelist[..j];
      if toSymbol != fromSymbol
        && IndexOf(blacklist, toSymbol) == -1
        && toSymbol in definitions
        && definitions[toSymbol].isSupportAdvanced == "Y"
      {
        tradable := tradable + [toSymbol];
      }
    }
    assert whitelist[..|whitelist|] == whitelist;
  }

  /** The inner loop under any other deposit symbol: every enforce-list
      symbol passing `blacklist.indexOf(toSymbol) !== undefined` is pushed. */
  method CollectFallback(enforcelist: seq<string>, blacklist: seq<string>) returns (tradable: seq<string>)
    ensures tradable == FallbackTargets(enforcelist, blacklist)
  {
    tradable := [];
    for j := 0 to |enforcelist|
      invariant tradable == FallbackTargets(enforcelist[..j], blacklist)
    {
      var toSymbol := enforcelist[j];
      assert enforcelist[..j + 1][..j] == enforcelist[..j];
      if Number(IndexOf(blacklist, toSymbol)) != Undefined {
        tradable := tradable + [toSymbol];
      }
    }
    assert enforcelist[..|enforcelist|] == enforcelist;
  }

  /** The pair filter as the handler runs it: key the provider's coin list by
      code, then for each whitelisted symbol with a definition collect its
      tradable symbols and record them when there is at least one. */
  method ListPairs(whitelist: seq<string>, enforcelist: seq<string>, data: seq<SwftPairDefinition>)
    returns (pairs: PairTable)
    ensures pairs == PairMap(whitelist, enforcelist, KeyByCoinCode(data))
  {
    var definitions := KeyByCoinCode(data);
    pairs := map[];
    for i := 0 to |whitelist|
      invariant pairs == Emitted(whitelist[..i], whitelist, enforcelist, definitions)
    {
      var fromSymbol := whitelist[i];
      assert whitelist[..i + 1][..i] == whitelist[..i];
      if fromSymbol in definitions {
        var blacklist := Split(definitions[fromSymbol].noSupportCoin, ',');
        var tradable: seq<string>;
        if IndexOf(enforcelist, fromSymbol) != -1 {
          tradable := CollectEnforced(whitelist, fromSymbol, blacklist, definitions);
        } else {
          tradable := CollectFallback(enforcelist, blacklist);
        }
        assert tradable == Tradable(fromSymbol, whitelist, enforcelist, definitions);
        if |tradable| > 0 {
          pairs := pairs[fromSymbol := tradable];
        }
      }
    }
    assert whitelist[..|whitelist|] == whitelist;
  }

  // ----------------------------------------------------------------- lemmas

  ghost predicate NoDuplicates(s: seq<string>)
  {
    forall i, j :: 0 <= i < j < |s| ==> s[i] != s[j]
  }

  /** A symbol is listed exactly when it is one of `tos` and is admitted. */
  lemma {:induction false} EnforcedTargetsMembers(tos: seq<string>, from: string, blacklist: seq<string>,
                                                  defs: Definitions, to: string)
    ensures to in EnforcedTargets(tos, from, blacklist, defs) <==> to in tos && EnforcedAdmits(to, from, blacklist, defs)
  {
    if tos != [] {
      var pre := tos[..|tos| - 1];
      EnforcedTargetsMembers(pre, from, blacklist, defs, to);
      assert tos == pre + [tos[|tos| - 1]];
    }
  }

  /** A symbol collected from `pre` keeps its position when one more symbol
      is appended to the scan. */
  lemma TargetIndexInPrefix(pre: seq<string>, last: string, from: string, blacklist: seq<string>,
                            defs: Definitions, x: string)
    requires x in EnforcedTargets(pre, from, blacklist, defs)
    ensures 0 <= IndexOf(pre, x) < |pre|
    ensures IndexOf(pre + [last], x) == IndexOf(pre, x)
  {
    EnforcedTargetsMembers(pre, from, blacklist, defs, x);
    IndexOfInPrefix(pre, [last], x);
  }

  /** Listed symbols keep the order they have in `tos`; with no repeated
      symbol in `tos` none is listed twice. */
  lemma {:induction false} EnforcedTargetsInOrder(tos: seq<string>, from: string, blacklist: seq<string>, defs: Definitions)
    requires NoDuplicates(tos)
    ensures var r := EnforcedTargets(tos, from, blacklist, defs);
      forall i, j :: 0 <= i < j < |r| ==> IndexOf(tos, r[i]) < IndexOf(tos, r[j])
  {
    if tos != [] {
      var pre, last := tos[..|tos| - 1], tos[|tos| - 1];
      assert tos == pre + [last];
      assert NoDuplicates(pre);
      EnforcedTargetsInOrder(pre, from, blacklist, defs);
      var earlier := EnforcedTargets(pre, from, blacklist, defs);
      var r := EnforcedTargets(tos, from, blacklist, defs);
      if EnforcedAdmits(last, from, blacklist, defs) {
        assert r == earlier + [last];
        assert last !in pre;
        assert IndexOf(tos, last) == |pre|;
        forall i, j | 0 <= i < j < |r|
          ensures IndexOf(tos, r[i]) < IndexOf(tos, r[j])
        {
          assert r[i] == earlier[i] && earlier[i] in earlier;
          TargetIndexInPrefix(pre, last, from, blacklist, defs, r[i]);
          if j < |earlier| {
            assert r[j] == earlier[j] && earlier[j] in earlier;
            TargetIndexInPrefix(pre, last, from, blacklist, defs, r[j]);
          }
        }
      } else {
        assert r == earlier;
        forall i, j | 0 <= i < j < |r|
          ensures IndexOf(tos, r[i]) < IndexOf(tos, r[j])
        {
          assert r[i] in earlier && r[j] in earlier;
          TargetIndexInPrefix(pre, last, from, blacklist, defs, r[i]);
          TargetIndexInPrefix(pre, last, from, blacklist, defs, r[j]);
        }
      }
    }
  }

  /** Under a non-enforced deposit symbol every enforce-list symbol is kept,
      whatever the blacklist holds. */
  lemma {:induction false} FallbackKeepsAll(tos: seq<string>, blacklist: seq<string>)
    ensures FallbackTargets(tos, blacklist) == tos
  {
    if tos != [] {
      FallbackKeepsAll(tos[..|tos| - 1], blacklist);
      assert tos == tos[..|tos| - 1] + [tos[|tos| - 1]];
    }
  }

  /** The entries recorded after visiting `froms`: a symbol has an entry
      exactly when it was visited, has a definition and a non-empty tradable
      list, and the entry is that list. */
  lemma {:induction false} EmittedEntries(froms: seq<string>, whitelist: seq<string>, enforce: seq<string>,
                                          defs: Definitions, symbol: string)
    ensures symbol in Emitted(froms, whitelist, enforce, defs)
            <==> symbol in froms && symbol in defs && |Tradable(symbol, whitelist, enforce, defs)| > 0
    ensures symbol in Emitted(froms, whitelist, enforce, defs)
            ==> Emitted(froms, whitelist, enforce, defs)[symbol] == Tradable(symbol, whitelist, enforce, defs)
  {
    if froms != [] {
      var pre := froms[..|froms| - 1];
      EmittedEntries(pre, whitelist, enforce, defs, symbol);
      assert froms == pre + [froms[|froms| - 1]];
    }
  }

  /** Every key is a whitelisted symbol with a definition, and no key maps
      to an empty list. */
  lemma KeysAreDefinedWhitelistSymbols(whitelist: seq<string>, enforce: seq<string>, defs: Definitions, symbol: string)
    requires symbol in PairMap(whitelist, enforce, defs)
    ensures symbol in whitelist && symbol in defs
    ensures |PairMap(whitelist, enforce, defs)[symbol]| > 0
  {
    EmittedEntries(whitelist, whitelist, enforce, defs, symbol);
  }

  /** Soundness and completeness under an enforced deposit symbol: a symbol
      is listed exactly when it is whitelisted, differs from the deposit
      symbol, is not in its blacklist, has a definition and supports
      advanced trading ("Y"). */
  lemma EnforcedSourceTargets(whitelist: seq<string>, enforce: seq<string>, defs: Definitions,
                              from: string, to: string)
    requires from in whitelist && from in enforce && from in defs
    ensures var table := PairMap(whitelist, enforce, defs);
      (from in table && to in table[from])
      <==> (&& to in whitelist
            && to != from
            && to !in Blacklist(defs[from])
            && to in defs
            && defs[to].isSupportAdvanced == "Y")
  {
    EmittedEntries(whitelist, whitelist, enforce, defs, from);
    EnforcedTargetsMembers(whitelist, from, Blacklist(defs[from]), defs, to);
  }

  /** Under an enforced deposit symbol the listed symbols follow whitelist
      order, without repetition, when the whitelist has none. */
  lemma EnforcedSourceOrdered(whitelist: seq<string>, enforce: seq<string>, defs: Definitions, from: string)
    requires NoDuplicates(whitelist)
    requires from in enforce && from in PairMap(whitelist, enforce, defs)
    ensures var r := PairMap(whitelist, enforce, defs)[from];
      && (forall i, j :: 0 <= i < j < |r| ==> IndexOf(whitelist, r[i]) < IndexOf(whitelist, r[j]))
      && NoDuplicates(r)
  {
    EmittedEntries(whitelist, whitelist, enforce, defs, from);
    EnforcedTargetsInOrder(whitelist, from, Blacklist(defs[from]), defs);
    var r := PairMap(whitelist, enforce, defs)[from];
    assert r == EnforcedTargets(whitelist, from, Blacklist(defs[from]), defs);
    forall i, j | 0 <= i < j < |r| ensures r[i] != r[j] {
      assert IndexOf(whitelist, r[i]) < IndexOf(whitelist, r[j]);
    }
  }

  /** A whitelisted symbol with a definition that is not enforced is listed
      with exactly the enforce-list, even when its blacklist names every
      enforce-list symbol. */
  lemma NonEnforcedSourceGetsEnforceList(whitelist: seq<string>, enforce: seq<string>, defs: Definitions, from: string)
    requires from in whitelist && from !in enforce && from in defs && enforce != []
    ensures from in PairMap(whitelist, enforce, defs)
    ensures PairMap(whitelist, enforce, defs)[from] == enforce
  {
    FallbackKeepsAll(enforce, Blacklist(defs[from]));
    EmittedEntries(whitelist, whitelist, enforce, defs, from);
  }

  /** With the handler's own lists, every whitelisted coin other than ETP
      that has a definition is listed with ETP alone. */
  lemma HandlerLists(defs: Definitions, from: string)
    requires from in Whitelist && from != "ETP" && from in defs
    ensures from in PairMap(Whitelist, EnforceList, defs) && PairMap(Whitelist, EnforceList, defs)[from] == ["ETP"]
  {
    NonEnforcedSourceGetsEnforceList(Whitelist, EnforceList, defs, from);
  }

  /** No symbol occurs twice in the handler's whitelist, so every enforced
      symbol's list is free of repetitions. */
  lemma WhitelistHasNoDuplicates()
    ensures NoDuplicates(Whitelist)
  {
    var w := Whitelist;
    assert w[0][1] == 'T' && w[1][1] == 'T' && w[2][1] == 'T' && w[8][1] == 'T';
    assert w[0][2] == 'P' && w[1][2] == 'C' && w[2][2] == 'H' && w[8][2] == 'C';
    assert w[0][0] == 'E' && w[1][0] == 'B' && w[2][0] == 'E' && w[3][0] == 'B' && w[4][0] == 'X';
    assert w[5][0] == 'E' && w[6][0] == 'L' && w[7][0] == 'X' && w[8][0] == 'E';
    assert w[3][1] == 'C' && w[4][1] == 'R' && w[5][1] == 'O' && w[6][1] == 'T' && w[7][1] == 'M';
  }

  /** The blacklist is split without trimming: " ETH" does not exclude
      "ETH", and an empty `noSupportCoin` excludes only the empty symbol. */
  lemma BlacklistIsPlainSplit(symbol: string)
    requires symbol != ""
    ensures Split("BTC, ETH", ',') == ["BTC", " ETH"] && "ETH" !in Split("BTC, ETH", ',')
    ensures Split("", ',') == [""] && symbol !in Split("", ',')
  {
    var parts := ["BTC", " ETH"];
    assert Join(parts, ',') == "BTC, ETH" by {
      assert parts[1..] == [" ETH"];
    }
    SplitJoin(parts, ',');
  }

  /** The whitelist of the three-coin example. */
  const ExampleWhitelist: seq<string> := ["ETP", "BTC", "ETH"]

  /** The provider's definitions in the three-coin example: the three coins
      support advanced trading, and ETP excludes ETH. Other fields, and
      other coins, do not matter. */
  predicate ExampleCoins(defs: Definitions)
  {
    && "ETP" in defs && "BTC" in defs && "ETH" in defs
    && defs["ETP"].isSupportAdvanced == "Y" && defs["ETP"].noSupportCoin == "ETH"
    && defs["BTC"].isSupportAdvanced == "Y" && defs["ETH"].isSupportAdvanced == "Y"
  }

  /** In the example, the enforced symbol ETP collects BTC only. */
  lemma ExampleEnforcedTargets(defs: Definitions)
    requires ExampleCoins(defs)
    ensures Tradable("ETP", ExampleWhitelist, EnforceList, defs) == ["BTC"]
  {
    var blacklist := Blacklist(defs["ETP"]);
    assert blacklist == ["ETH"] by {
      SplitJoin(["ETH"], ',');
    }
    var w := ExampleWhitelist;
    var w1, w2 := w[..1], w[..2];
    assert w1 == ["ETP"] && w2 == ["ETP", "BTC"];
    assert w2[..1] == w1 && w1[..0] == [] && w[..2] == w2;
    assert EnforcedTargets(w1, "ETP", blacklist, defs) == [];
    assert EnforcedAdmits("BTC", "ETP", blacklist, defs);
    assert EnforcedTargets(w2, "ETP", blacklist, defs) == ["BTC"];
    assert !EnforcedAdmits("ETH", "ETP", blacklist, defs);
  }

  /** Three coins, ETP enforced, ETP excluding ETH, BTC and ETH both
      supporting advanced trading: ETP is listed with BTC only, and BTC and
      ETH are each listed with ETP. */
  lemma ThreeCoinExample(defs: Definitions)
    requires ExampleCoins(defs)
    ensures PairMap(ExampleWhitelist, EnforceList, defs) == map["ETP" := ["BTC"], "BTC" := ["ETP"], "ETH" := ["ETP"]]
  {
    var w := ExampleWhitelist;
    var table := PairMap(w, EnforceList, defs);
    var expected := map["ETP" := ["BTC"], "BTC" := ["ETP"], "ETH" := ["ETP"]];
    assert "ETP" in table && table["ETP"] == ["BTC"] by {
      ExampleEnforcedTargets(defs);
      EmittedEntries(w, w, EnforceList, defs, "ETP");
    }
    assert "BTC" in table && table["BTC"] == ["ETP"] by {
      NonEnforcedSourceGetsEnforceList(w, EnforceList, defs, "BTC");
    }
    assert "ETH" in table && table["ETH"] == ["ETP"] by {
      NonEnforcedSourceGetsEnforceList(w, EnforceList, defs, "ETH");
    }
    assert table.Keys <= expected.Keys by {
      forall symbol | symbol in table
        ensures symbol in expected
      {
        KeysAreDefinedWhitelistSymbols(w, EnforceList, defs, symbol);
      }
    }
  }
}
