/**
 * One product of a fetched page and what the re-pricing action makes of it:
 * the numbers read from its metafields, the variant it writes to, and the
 * price write it plans (or that it is skipped).
 */
module Catalog {
  import opened Wrappers
  import opened NumberParse
  import opened Pricing

  /** A metafield as the product query returns it; `None` is a `null` value. */
  datatype Metafield = Metafield(key: string, value: Option<string>)

  /** A variant as the product query returns it (its current price is text). */
  datatype Variant = Variant(id: string, title: string, price: string)

  /** A product node of a page: at most one variant and ten metafields are requested. */
  datatype Product = Product(id: string, tags: seq<string>, variants: seq<Variant>, metafields: seq<Metafield>)

  /** The price write issued for one product: its id, its first variant's id, the new price. */
  datatype WriteRequest = WriteRequest(productId: string, variantId: string, price: int)

  const GoldWeightKey: string := "gold_weight"
  const MakingChargesKey: string := "making_charges"
  const StonePriceKey: string := "stone_price"

  /**
   * The number the metafield list gives `key` when it is read front to back
   * and each occurrence overwrites the previous one; 0 when `key` is absent.
   */
  function FieldValue(fields: seq<Metafield>, key: string): real
  {
    if fields == [] then 0.0
    else if fields[|fields| - 1].key == key then NumberOr0(fields[|fields| - 1].value)
    else FieldValue(fields[..|fields| - 1], key)
  }

  /** When a key repeats, its last occurrence decides the value. */
  lemma {:induction false} LastOccurrenceWins(fields: seq<Metafield>, key: string, i: nat)
    requires i < |fields| && fields[i].key == key
    requires forall j :: i < j < |fields| ==> fields[j].key != key
    ensures FieldValue(fields, key) == NumberOr0(fields[i].value)
  {
    if i < |fields| - 1 {
      var front := fields[..|fields| - 1];
      assert front[i] == fields[i];
      assert forall j :: i < j < |front| ==> front[j] == fields[j];
      LastOccurrenceWins(front, key, i);
    }
  }

  /** A key that does not occur reads as 0. */
  lemma {:induction false} AbsentKeyIsZero(fields: seq<Metafield>, key: string)
    requires forall j :: 0 <= j < |fields| ==> fields[j].key != key
    ensures FieldValue(fields, key) == 0.0
  {
    if fields != [] {
      var front := fields[..|fields| - 1];
      assert forall j :: 0 <= j < |front| ==> front[j] == fields[j];
      AbsentKeyIsZero(front, key);
    }
  }

  /** A missing metafield and one whose value is the text "0" price alike. */
  lemma ZeroTextLikeAbsent(fields: seq<Metafield>, key: string)
    requires forall j :: 0 <= j < |fields| ==> fields[j].key != key
    ensures FieldValue(fields + [Metafield(key, Some("0"))], key) == FieldValue(fields, key) == 0.0
  {
    AbsentKeyIsZero(fields, key);
    var zero := "0";
    assert DigitsValue(zero) == 0 by {
      assert zero[..0] == "";
    }
    ReadsAsInteger(zero);
    var all := fields + [Metafield(key, Some(zero))];
    assert all[..|all| - 1] == fields;
    assert FieldValue(all, key) == NumberOr0(Some(zero));
  }

  /**
   * The stone-price branch: `null` and "" are tested before parsing, and
   * the value read is exactly the one the other two keys would give.
   */
  function StoneValue(value: Option<string>): (v: real)
    ensures v == NumberOr0(value)
  {
    if value == None || value == Some("") then 0.0 else NumberOr0(value)
  }

  /**
   * The `forEach` over the metafields: each recognised key overwrites its
   * variable, every other key is ignored.
   */
  method ExtractMetafields(metafields: seq<Metafield>) returns (goldWeight: real, makingCharges: real, stonePrice: real)
    ensures goldWeight == FieldValue(metafields, GoldWeightKey)
    ensures makingCharges == FieldValue(metafields, MakingChargesKey)
    ensures stonePrice == FieldValue(metafields, StonePriceKey)
  {
    goldWeight, makingCharges, stonePrice := 0.0, 0.0, 0.0;
    for i := 0 to |metafields|
      invariant goldWeight == FieldValue(metafields[..i], GoldWeightKey)
      invariant makingCharges == FieldValue(metafields[..i], MakingChargesKey)
      invariant stonePrice == FieldValue(metafields[..i], StonePriceKey)
    {
      var field := metafields[i];
      assert metafields[..i + 1][..i] == metafields[..i];
      if field.key == GoldWeightKey {
        goldWeight := NumberOr0(field.value);
      } else if field.key == MakingChargesKey {
        makingCharges := NumberOr0(field.value);
      } else if field.key == StonePriceKey {
        stonePrice := StoneValue(field.value);
      }
    }
    assert metafields[..|metafields|] == metafields;
  }

  /** The id of the product's first variant, or `None` when there is none (an empty id is falsy too). */
  function VariantTarget(variants: seq<Variant>): (id: Option<string>)
    ensures id.Some? <==> |variants| > 0 && variants[0].id != ""
    ensures id.Some? ==> id.value == variants[0].id
  {
    if |variants| > 0 && variants[0].id != "" then Some(variants[0].id) else None
  }

  /**
   * The price write the action issues for `product`, or `None` when the
   * product is skipped (no purity tag, or no variant to write to).
   */
  function PlannedWrite(rates: RateRecord, product: Product): (w: Option<WriteRequest>)
    ensures w.Some? ==> w.value.productId == product.id
                        && |product.variants| > 0 && w.value.variantId == product.variants[0].id
  {
    match SelectRate(product.tags, rates)
    case None => None
    case Some(goldRate) =>
      match VariantTarget(product.variants)
      case None => None
      case Some(variantId) =>
        var price := NewPrice(goldRate,
                              FieldValue(product.metafields, GoldWeightKey),
                              FieldValue(product.metafields, MakingChargesKey),
                              FieldValue(product.metafields, StonePriceKey));
        Some(WriteRequest(product.id, variantId, price))
  }

  /**
   * A product is written exactly when it carries a purity tag and has a
   * variant; the write targets that product and its first variant, at the
   * price of the formula for the selected rate.
   */
  lemma PlannedWriteCharacterised(rates: RateRecord, product: Product)
    ensures PlannedWrite(rates, product).Some?
        <==> (Tagged22K(product.tags) || Tagged18K(product.tags))
             && |product.variants| > 0 && product.variants[0].id != ""
    ensures PlannedWrite(rates, product).Some? ==>
      var w := PlannedWrite(rates, product).value;
      var rate := if Tagged22K(product.tags) then rates.goldRate22K else rates.goldRate18K;
      && w.productId == product.id
      && w.variantId == product.variants[0].id
      && w.price == NewPrice(rate, FieldValue(product.metafields, GoldWeightKey),
                             FieldValue(product.metafields, MakingChargesKey),
                             FieldValue(product.metafields, StonePriceKey))
  {
  }

  /** Two products that differ only in their variants' current prices and titles. */
  predicate SameExceptCurrentPrice(p: Product, q: Product) {
    && p.id == q.id && p.tags == q.tags && p.metafields == q.metafields
    && |p.variants| == |q.variants|
    && forall k :: 0 <= k < |p.variants| ==> p.variants[k].id == q.variants[k].id
  }

  /**
   * The new price depends only on tags, metafields and rates, never on the
   * variant's current price, so re-running with the same inputs writes the
   * same prices.
   */
  lemma IgnoresCurrentPrice(rates: RateRecord, p: Product, q: Product)
    requires SameExceptCurrentPrice(p, q)
    ensures PlannedWrite(rates, p) == PlannedWrite(rates, q)
  {
    if |p.variants| > 0 {
      assert p.variants[0].id == q.variants[0].id;
    }
  }

  /** The three keys the action reads are different strings. */
  lemma KeysDistinct()
    ensures GoldWeightKey != MakingChargesKey && GoldWeightKey != StonePriceKey && MakingChargesKey != StonePriceKey
  {
    assert GoldWeightKey[0] == 'g' && MakingChargesKey[0] == 'm' && StonePriceKey[0] == 's';
  }

  /** Metafields carrying a weight, a making charge and a stone price as digit strings. */
  function DigitFields(weight: string, making: string, stone: string): seq<Metafield> {
    [Metafield(GoldWeightKey, Some(weight)), Metafield(MakingChargesKey, Some(making)),
     Metafield(StonePriceKey, Some(stone))]
  }

  /** The last metafield for `key`, when its value is a string of digits, gives the integer it spells. */
  lemma DigitFieldValue(fields: seq<Metafield>, key: string, i: nat, digits: string)
    requires i < |fields| && fields[i] == Metafield(key, Some(digits))
    requires forall j :: i < j < |fields| ==> fields[j].key != key
    requires digits != [] && AllDigits(digits)
    ensures FieldValue(fields, key) == DigitsValue(digits) as real
  {
    LastOccurrenceWins(fields, key, i);
    ReadsAsInteger(digits);
  }

  /**
   * A 22K product whose metafields spell 5 (weight), 10 (making %) and 200
   * (stone) in digits is written to its first variant at 34217 when the
   * 22K rate is 6000.
   */
  lemma WorkedProduct(product: Product, weight: string, making: string, stone: string)
    requires product.tags == ["Gold_22K"] && |product.variants| > 0 && product.variants[0].id != ""
    requires product.metafields == DigitFields(weight, making, stone)
    requires weight != [] && making != [] && stone != []
    requires AllDigits(weight) && AllDigits(making) && AllDigits(stone)
    requires DigitsValue(weight) == 5 && DigitsValue(making) == 10 && DigitsValue(stone) == 200
    ensures PlannedWrite(RateRecord(6000.0, 4900.0), product)
         == Some(WriteRequest(product.id, product.variants[0].id, 34217))
  {
    var fields := product.metafields;
    KeysDistinct();
    DigitFieldValue(fields, GoldWeightKey, 0, weight);
    DigitFieldValue(fields, MakingChargesKey, 1, making);
    DigitFieldValue(fields, StonePriceKey, 2, stone);
    WorkedExample();
    assert SelectRate(product.tags, RateRecord(6000.0, 4900.0)) == Some(6000.0);
    assert VariantTarget(product.variants) == Some(product.variants[0].id);
  }

  /**
   * The per-product step of the action's loop: choose the rate (skip when
   * there is none), read the metafields, find the variant (skip when there
   * is none) and compute the new price.
   */
  method PriceProduct(rates: RateRecord, product: Product) returns (planned: Option<WriteRequest>)
    ensures planned == PlannedWrite(rates, product)
  {
    var goldRate := SelectRate(product.tags, rates);
    if goldRate.None? {
      return None;
    }
    var goldWeight, makingCharges, stonePrice := ExtractMetafields(product.metafields);
    var variantId := VariantTarget(product.variants);
    if variantId.None? {
      return None;
    }
    var newPrice := NewPrice(goldRate.value, goldWeight, makingCharges, stonePrice);
    planned := Some(WriteRequest(product.id, variantId.value, newPrice));
  }
}
