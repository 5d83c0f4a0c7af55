/** Raw catalog objects as the commerce platform returns them, and the small
    pure readers the exporter applies to them (scripts/fetch-square.mjs,
    lines 71 and 121-143). Every field the script reaches through `?.` or
    `??` is an `Option`; `None` stands for both `null` and `undefined`
    except for money amounts, where `Number()` tells the two apart. */
module CatalogObjects {
  import opened Wrappers

  /** The `type` tag of a catalog object. */
  datatype ObjectType = Item | ItemVariation | Image | OtherType

  /** A raw money amount as `Number()` sees it. */
  datatype Amount = Undefined | Null | Finite(minor: int) | NotFinite

  datatype NestedMoney = NestedMoney(amount: Amount, currency: Option<string>)

  /** `{ amount, currency, amount_money }`: the field names seen across API versions. */
  datatype RawMoney = RawMoney(amount: Amount, currency: Option<string>, amountMoney: Option<NestedMoney>)

  datatype ItemData = ItemData(name: Option<string>, descriptionHtml: Option<string>, description: Option<string>)

  datatype VariationData = VariationData(
    itemId: Option<string>,
    name: Option<string>,
    sku: Option<string>,
    priceMoney: Option<RawMoney>,
    priceMoneySnake: Option<RawMoney>)

  datatype ImageData = ImageData(url: Option<string>)

  datatype CatalogObject = CatalogObject(
    kind: ObjectType,
    id: string,
    isDeleted: bool,
    presentAtLocationIds: Option<seq<string>>,
    absentAtLocationIds: Option<seq<string>>,
    itemData: Option<ItemData>,
    itemVariationData: Option<VariationData>,
    imageData: Option<ImageData>,
    imageId: Option<string>)

  /** A normalised price: `amount` is the minor-unit count divided by 100. */
  datatype Price = Price(amount: real, currency: string)

  /** `presentAtLocation`: an object is sellable at `location` unless a
      non-empty presence list leaves it out or the absence list names it. */
  function PresentAtLocation(obj: CatalogObject, location: string): (r: bool)
    ensures r <==>
      (forall ids :: obj.presentAtLocationIds == Some(ids) && ids != [] ==> location in ids)
      && (forall ids :: obj.absentAtLocationIds == Some(ids) ==> location !in ids)
  {
    var present := obj.presentAtLocationIds.GetOr([]);
    var absent := obj.absentAtLocationIds.GetOr([]);
    if |present| > 0 && location !in present then false
    else if location in absent then false
    else true
  }

  /** `Number(x)` on an amount: `None` is NaN. */
  function NumberOf(a: Amount): Option<int> {
    match a
    case Undefined => None
    case Null => Some(0)
    case Finite(m) => Some(m)
    case NotFinite => None
  }

  /** `money.amount ?? money.amount_money?.amount`. */
  function AmountField(m: RawMoney): Amount {
    if m.amount.Undefined? || m.amount.Null? then
      match m.amountMoney
      case Some(n) => n.amount
      case None => Undefined
    else m.amount
  }

  /** `money.currency ?? money.amount_money?.currency ?? "USD"`. */
  function CurrencyField(m: RawMoney): string {
    match m.currency
    case Some(c) => c
    case None =>
      match m.amountMoney
      case Some(NestedMoney(_, Some(c))) => c
      case _ => "USD"
  }

  /** The minor-unit count a price stands for. */
  function MinorUnits(p: Price): int {
    (p.amount * 100.0).Floor
  }

  /** `readPrice`: no price when the money is missing or its amount is not a
      finite number; otherwise the amount in major units, exactly
      recoverable as minor units, with the first currency found. */
  function ReadPrice(money: Option<RawMoney>): (r: Option<Price>)
    ensures money.None? ==> r.None?
    ensures money.Some? ==> (r.None? <==> NumberOf(AmountField(money.value)).None?)
    ensures r.Some? ==> MinorUnits(r.value) == NumberOf(AmountField(money.value)).value
    ensures r.Some? ==> r.value.amount * 100.0 == MinorUnits(r.value) as real
    ensures r.Some? ==> r.value.currency == CurrencyField(money.value)
  {
    match money
    case None => None
    case Some(m) =>
      match NumberOf(AmountField(m))
      case None => None
      case Some(minor) =>
        var p := Price(minor as real / 100.0, CurrencyField(m));
        assert p.amount * 100.0 == minor as real;
        Some(p)
  }

  /** `firstImageUrl`: the URL of the image the item names, when its id is
      non-empty, indexed, and the image carries a URL. */
  function FirstImageUrl(item: CatalogObject, images: map<string, CatalogObject>): (r: Option<string>)
    ensures r.Some? <==>
      && item.imageId.Some? && item.imageId.value != "" && item.imageId.value in images
      && images[item.imageId.value].imageData.Some?
      && images[item.imageId.value].imageData.value.url.Some?
    ensures r.Some? ==> r.value == images[item.imageId.value].imageData.value.url.value
  {
    match item.imageId
    case None => None
    case Some(imgId) =>
      if imgId != "" && imgId in images then
        match images[imgId].imageData
        case None => None
        case Some(d) => d.url
      else None
  }

  /** Nineteen dollars ninety-nine: 1999 minor units in USD read as 19.99 USD and back. */
  lemma MoneyRoundTrip()
    ensures ReadPrice(Some(RawMoney(Finite(1999), Some("USD"), None))) == Some(Price(19.99, "USD"))
    ensures MinorUnits(Price(19.99, "USD")) == 1999
  {
  }

  /** The currency comes from the money itself, then from its nested
      `amount_money`, and is "USD" only when neither has one. */
  lemma CurrencyFallback(m: RawMoney)
    requires NumberOf(AmountField(m)).Some?
    ensures m.currency.Some? ==> ReadPrice(Some(m)).value.currency == m.currency.value
    ensures m.currency.None? && m.amountMoney.Some? && m.amountMoney.value.currency.Some? ==>
      ReadPrice(Some(m)).value.currency == m.amountMoney.value.currency.value
    ensures m.currency.None? && (m.amountMoney.None? || m.amountMoney.value.currency.None?) ==>
      ReadPrice(Some(m)).value.currency == "USD"
  {
  }

  /** A nested amount is used only when the direct one is `null` or absent,
      and a `null` amount reads as zero rather than as no price. */
  lemma AmountFallback(minor: int, nested: Amount)
    ensures ReadPrice(Some(RawMoney(Finite(minor), None, Some(NestedMoney(nested, None))))).value.amount == minor as real / 100.0
    ensures ReadPrice(Some(RawMoney(Undefined, None, None))).None?
    ensures ReadPrice(Some(RawMoney(Null, None, Some(NestedMoney(Null, None))))) == Some(Price(0.0, "USD"))
  {
  }

  /** A presence list naming only location A admits A and not B; an absence
      list naming the target excludes it even with no presence list. */
  lemma LocationScenarios(obj: CatalogObject, a: string, b: string)
    requires a != b
    ensures PresentAtLocation(obj.(presentAtLocationIds := Some([a]), absentAtLocationIds := None), a)
    ensures !PresentAtLocation(obj.(presentAtLocationIds := Some([a]), absentAtLocationIds := None), b)
    ensures !PresentAtLocation(obj.(presentAtLocationIds := None, absentAtLocationIds := Some([a])), a)
  {
  }
}
