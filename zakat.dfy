/**
 * Zakat on net wealth: seven asset fields are added up, liabilities taken off, and
 * 2.5% of the rest is due when it reaches the nisab threshold.
 */
module Zakat {
  import opened Numeric

  /**
   * The form's fields by name, already converted with `Number(...)`. A field the map
   * does not hold is empty, and an empty field counts as 0 (`x || 0`).
   */
  type Assets = map<string, real>

  /** The asset fields that are added up, under the exact names the form sends. */
  const AssetKeys: seq<string> :=
    ["cashHand", "cashBank", "goldValue", "silverValue", "investmentValue", "businessGoods", "debtsRecievable"]

  /** The share of net wealth due. */
  const Rate: real := 0.025

  function Field(assets: Assets, key: string): real
  {
    if key in assets then assets[key] else 0.0
  }

  /** The sum of the fields named in `keys`. */
  function SumFields(assets: Assets, keys: seq<string>): real
  {
    if keys == [] then 0.0 else SumFields(assets, keys[..|keys| - 1]) + Field(assets, keys[|keys| - 1])
  }

  /** The sum over the asset keys, written out field by field. */
  lemma SevenFields(assets: Assets)
    ensures SumFields(assets, AssetKeys)
         == Field(assets, "cashHand") + Field(assets, "cashBank") + Field(assets, "goldValue")
          + Field(assets, "silverValue") + Field(assets, "investmentValue")
          + Field(assets, "businessGoods") + Field(assets, "debtsRecievable")
  {
    var ks := AssetKeys;
    assert ks[..1][..0] == [];
    assert SumFields(assets, ks[..1]) == Field(assets, "cashHand");
    assert ks[..2][..1] == ks[..1];
    assert SumFields(assets, ks[..2]) == Field(assets, "cashHand") + Field(assets, "cashBank");
    assert ks[..3][..2] == ks[..2];
    assert SumFields(assets, ks[..3]) == Field(assets, "cashHand") + Field(assets, "cashBank") + Field(assets, "goldValue");
    assert ks[..4][..3] == ks[..3];
    assert SumFields(assets, ks[..4]) == Field(assets, "cashHand") + Field(assets, "cashBank") + Field(assets, "goldValue") + Field(assets, "silverValue");
    assert ks[..5][..4] == ks[..4];
    assert SumFields(assets, ks[..5]) == Field(assets, "cashHand") + Field(assets, "cashBank") + Field(assets, "goldValue") + Field(assets, "silverValue") + Field(assets, "investmentValue");
    assert ks[..6][..5] == ks[..5];
    assert SumFields(assets, ks[..6]) == Field(assets, "cashHand") + Field(assets, "cashBank") + Field(assets, "goldValue") + Field(assets, "silverValue") + Field(assets, "investmentValue") + Field(assets, "businessGoods");
    assert ks[..7][..6] == ks[..6];
    assert SumFields(assets, ks[..7]) == Field(assets, "cashHand") + Field(assets, "cashBank") + Field(assets, "goldValue") + Field(assets, "silverValue") + Field(assets, "investmentValue") + Field(assets, "businessGoods") + Field(assets, "debtsRecievable");
    assert ks[..7] == ks;
  }

  function TotalAssets(assets: Assets): (t: real)
    ensures t == Field(assets, "cashHand") + Field(assets, "cashBank") + Field(assets, "goldValue")
               + Field(assets, "silverValue") + Field(assets, "investmentValue")
               + Field(assets, "businessGoods") + Field(assets, "debtsRecievable")
  {
    SevenFields(assets);
    SumFields(assets, AssetKeys)
  }

  function NetWealth(assets: Assets): (n: real)
    ensures "liabilities" !in assets ==> n == TotalAssets(assets)
    ensures Field(assets, "liabilities") >= 0.0 ==> n <= TotalAssets(assets)
  {
    TotalAssets(assets) - Field(assets, "liabilities")
  }

  datatype ZakatResult = ZakatResult(isZakatEligible: bool, netWealth: real, zakatPayable: real, totalAssets: real)

  /**
   * `calculateZakat`: below the nisab nothing is due and the raw figures are returned;
   * otherwise 2.5% of net wealth is due, and the three figures are clamped at 0.
   */
  function CalculateZakat(assets: Assets): (z: ZakatResult)
    ensures z.isZakatEligible <==> NetWealth(assets) >= Field(assets, "nisabValue")
    ensures !z.isZakatEligible ==>
              z.zakatPayable == 0.0 && z.netWealth == NetWealth(assets) && z.totalAssets == TotalAssets(assets)
    ensures z.isZakatEligible ==>
              z.netWealth == Max(0.0, NetWealth(assets)) && z.totalAssets == Max(0.0, TotalAssets(assets))
    ensures z.isZakatEligible ==> z.zakatPayable >= 0.0 && z.zakatPayable * 40.0 == z.netWealth
  {
    var totalAssets := TotalAssets(assets);
    var netWealth := NetWealth(assets);
    if netWealth < Field(assets, "nisabValue") then
      ZakatResult(false, netWealth, 0.0, totalAssets)
    else
      var zakatPayable := netWealth * Rate;
      ZakatResult(true, Max(0.0, netWealth), Max(0.0, zakatPayable), Max(0.0, totalAssets))
  }

  /** Only the seven asset fields, the liabilities and the nisab are read. */
  predicate ReadsSame(a: Assets, b: Assets)
  {
    (forall k :: k in AssetKeys ==> Field(a, k) == Field(b, k)) &&
    Field(a, "liabilities") == Field(b, "liabilities") && Field(a, "nisabValue") == Field(b, "nisabValue")
  }

  lemma {:induction false} SumFieldsSame(a: Assets, b: Assets, keys: seq<string>)
    requires forall k :: k in keys ==> Field(a, k) == Field(b, k)
    ensures SumFields(a, keys) == SumFields(b, keys)
  {
    if keys != [] {
      SumFieldsSame(a, b, keys[..|keys| - 1]);
      assert keys[|keys| - 1] in keys;
    }
  }

  /** Two forms that agree on the fields read give the same result. */
  lemma ZakatReadsOnlyItsFields(a: Assets, b: Assets)
    requires ReadsSame(a, b)
    ensures CalculateZakat(a) == CalculateZakat(b)
  {
    SumFieldsSame(a, b, AssetKeys);
  }

  /**
   * A field under another name is ignored: receivables count only under the form's
   * own spelling "debtsRecievable", never "debtsReceivable".
   */
  lemma OtherKeysIgnored(assets: Assets, key: string, v: real)
    requires key !in AssetKeys && key != "liabilities" && key != "nisabValue"
    ensures CalculateZakat(assets[key := v]) == CalculateZakat(assets)
  {
    ZakatReadsOnlyItsFields(assets[key := v], assets);
  }

  lemma ReceivablesSpelling(assets: Assets, v: real)
    ensures CalculateZakat(assets["debtsReceivable" := v]) == CalculateZakat(assets)
    ensures TotalAssets(assets["debtsRecievable" := v]) == TotalAssets(assets) - Field(assets, "debtsRecievable") + v
  {
    assert "debtsReceivable" !in AssetKeys;
    OtherKeysIgnored(assets, "debtsReceivable", v);
    var b := assets["debtsRecievable" := v];
    assert AssetKeys == AssetKeys[..6] + ["debtsRecievable"];
    SumFieldsSame(b, assets, AssetKeys[..6]);
  }

  lemma {:induction false} SumFieldsMonotone(a: Assets, b: Assets, keys: seq<string>)
    requires forall k :: k in keys ==> Field(a, k) <= Field(b, k)
    ensures SumFields(a, keys) <= SumFields(b, keys)
  {
    if keys != [] {
      SumFieldsMonotone(a, b, keys[..|keys| - 1]);
      assert keys[|keys| - 1] in keys;
    }
  }

  /**
   * More assets or fewer liabilities, at the same nisab, never take away eligibility
   * and never lower what is due.
   */
  lemma ZakatMonotone(a: Assets, b: Assets)
    requires forall k :: k in AssetKeys ==> Field(a, k) <= Field(b, k)
    requires Field(b, "liabilities") <= Field(a, "liabilities")
    requires Field(a, "nisabValue") == Field(b, "nisabValue")
    ensures NetWealth(a) <= NetWealth(b)
    ensures CalculateZakat(a).isZakatEligible ==> CalculateZakat(b).isZakatEligible
    ensures CalculateZakat(a).zakatPayable <= CalculateZakat(b).zakatPayable
  {
    SumFieldsMonotone(a, b, AssetKeys);
  }

  /** When every field but the i-th is empty, the sum is that one field. */
  lemma {:induction false} SumFieldsSingle(assets: Assets, keys: seq<string>, i: nat)
    requires i < |keys|
    requires forall j :: 0 <= j < |keys| && j != i ==> keys[j] !in assets
    ensures SumFields(assets, keys) == Field(assets, keys[i])
  {
    var n := |keys| - 1;
    if i < n {
      SumFieldsSingle(assets, keys[..n], i);
      assert keys[n] !in assets;
    } else {
      SumFieldsNone(assets, keys[..n]);
    }
  }

  lemma {:induction false} SumFieldsNone(assets: Assets, keys: seq<string>)
    requires forall j :: 0 <= j < |keys| ==> keys[j] !in assets
    ensures SumFields(assets, keys) == 0.0
  {
    if keys != [] {
      SumFieldsNone(assets, keys[..|keys| - 1]);
    }
  }

  /** The form as the page sends it: cash in hand and the nisab of 110,000. */
  function CashOnly(cash: real): Assets
  {
    map["cashHand" := cash, "nisabValue" := 110000.0]
  }

  /** 200,000 in hand owes 5,000; 50,000 is below the nisab and owes nothing. */
  lemma ZakatExamples()
    ensures CalculateZakat(CashOnly(200000.0)) == ZakatResult(true, 200000.0, 5000.0, 200000.0)
    ensures CalculateZakat(CashOnly(50000.0)) == ZakatResult(false, 50000.0, 0.0, 50000.0)
  {
    SumFieldsSingle(CashOnly(200000.0), AssetKeys, 0);
    SumFieldsSingle(CashOnly(50000.0), AssetKeys, 0);
  }

  /** A negative nisab lets a net debt through as eligible, and every figure is then clamped to 0. */
  lemma NetDebtClamped()
    ensures CalculateZakat(map["liabilities" := 1000.0, "nisabValue" := -5000.0]) == ZakatResult(true, 0.0, 0.0, 0.0)
    ensures CalculateZakat(map["liabilities" := 1000.0]) == ZakatResult(false, -1000.0, 0.0, 0.0)
  {
    SumFieldsNone(map["liabilities" := 1000.0, "nisabValue" := -5000.0], AssetKeys);
    SumFieldsNone(map["liabilities" := 1000.0], AssetKeys);
  }
}
