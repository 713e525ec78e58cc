/** The message bodies as they lie in memory on x86-64, and the lengths that follow from
    their fields. */
module Layouts {
  import opened Basics
  import opened Messages

  /** A type in memory: its size, and what its address is a multiple of. */
  datatype Layout = Layout(size: nat, align: nat) {
    function Times(n: nat): Layout { Layout(n * size, align) }
  }

  /** A field of a structure. */
  datatype Field = At(offset: nat, layout: Layout)

  const CHAR := Layout(1, 1)
  const INT := Layout(4, 4)
  const LONG := Layout(8, 8)

  function Chars(n: nat): Layout { CHAR.Times(n) }

  /** Each field stands at the first offset after the one before that suits it. */
  predicate Follows(end: nat, f: Field) {
    f.layout.align in {1, 4, 8} && end <= f.offset < end + f.layout.align && f.offset % f.layout.align == 0
  }

  predicate Packed(fields: seq<Field>) {
    fields != [] && Follows(0, fields[0])
    && forall i :: 0 < i < |fields| ==> Follows(End(fields[i - 1]), fields[i])
  }

  function End(f: Field): nat { f.offset + f.layout.size }

  /** The structure is aligned as its most demanding field, and padded so that it can stand
      in an array. */
  predicate IsStruct(l: Layout, fields: seq<Field>) {
    && Packed(fields) && (exists f :: f in fields && f.layout.align == l.align)
    && (forall f :: f in fields ==> f.layout.align <= l.align)
    && End(fields[|fields| - 1]) <= l.size < End(fields[|fields| - 1]) + l.align && l.size % l.align == 0
  }

  /** The fields alone decide where each of them is, and the layout of the whole. */
  lemma LayoutIsUnique(l: Layout, fields: seq<Field>, l': Layout, fields': seq<Field>)
    requires IsStruct(l, fields) && IsStruct(l', fields') && |fields| == |fields'|
    requires forall i :: 0 <= i < |fields| ==> fields[i].layout == fields'[i].layout
    ensures fields == fields' && l == l'
  {
    hide Follows;
    OffsetsAreUnique(fields, fields', |fields|);
    assert fields[..|fields|] == fields && fields'[..|fields|] == fields';
    WholeIsUnique(l, l', fields);
  }

  lemma WholeIsUnique(l: Layout, l': Layout, fields: seq<Field>)
    requires IsStruct(l, fields) && IsStruct(l', fields)
    ensures l == l'
  {
    hide Packed;
    var f :| f in fields && f.layout.align == l.align;
    var f' :| f' in fields && f'.layout.align == l'.align;
    assert l.align <= l'.align && l'.align <= l.align;
    AlignedSo(fields, f);
    NextIsUnique(End(fields[|fields| - 1]), l.align, l.size, l'.size);
  }

  lemma AlignedSo(fields: seq<Field>, f: Field)
    requires Packed(fields) && f in fields
    ensures f.layout.align in {1, 4, 8}
  {
    var i :| 0 <= i < |fields| && fields[i] == f;
    assert Follows(if i == 0 then 0 else End(fields[i - 1]), fields[i]);
  }

  lemma NextIsUnique(end: nat, a: nat, x: nat, y: nat)
    requires a in {1, 4, 8} && end <= x < end + a && end <= y < end + a && x % a == 0 && y % a == 0
    ensures x == y
  {}

  lemma {:induction false} OffsetsAreUnique(fields: seq<Field>, fields': seq<Field>, n: nat)
    requires Packed(fields) && Packed(fields') && n <= |fields| == |fields'|
    requires forall i :: 0 <= i < |fields| ==> fields[i].layout == fields'[i].layout
    ensures fields[..n] == fields'[..n]
  {
    if n > 0 {
      OffsetsAreUnique(fields, fields', n - 1);
      assert n > 1 ==> fields[..n - 1][n - 2] == fields'[..n - 1][n - 2];
      var end := if n == 1 then 0 else End(fields[n - 2]);
      assert Follows(end, fields[n - 1]) && Follows(end, fields'[n - 1]);
      NextIsUnique(end, fields[n - 1].layout.align, fields[n - 1].offset, fields'[n - 1].offset);
      assert fields[..n] == fields[..n - 1] + [fields[n - 1]] && fields'[..n] == fields'[..n - 1] + [fields'[n - 1]];
    }
  }

  // ------------------------------------------------------------ the structures

  const RPC := Layout(8, 4)
  const CART_ITEM := Layout(16, 4)
  const ADD_ITEM_REQUEST := Layout(68, 4)
  const EMPTY_CART_REQUEST := Layout(50, 1)
  const GET_CART_REQUEST := Layout(50, 1)
  const CART := Layout(216, 4)
  const GET_CART_RR := Layout(268, 4)
  const LIST_RECOMMENDATIONS_REQUEST := Layout(168, 4)
  const LIST_RECOMMENDATIONS_RESPONSE := Layout(116, 4)
  const LIST_RECOMMENDATIONS_RR := Layout(284, 4)
  const MONEY := Layout(24, 8)
  const GET_SUPPORTED_CURRENCIES_RESPONSE := Layout(64, 4)
  const CURRENCY_CONVERSION_REQUEST := Layout(40, 8)
  const CURRENCY_CONVERSION_RR := Layout(64, 8)
  const PRODUCT := Layout(224, 8)
  const LIST_PRODUCTS_RESPONSE := Layout(2024, 8)
  const GET_PRODUCT_REQUEST := Layout(11, 1)
  const GET_PRODUCT_RR := Layout(240, 8)
  const SEARCH_PRODUCTS_REQUEST := Layout(50, 1)
  const SEARCH_PRODUCTS_RESPONSE := Layout(2024, 8)
  const SEARCH_PRODUCTS_RR := Layout(2080, 8)
  const ADDRESS := Layout(100, 4)
  const GET_QUOTE_REQUEST := Layout(264, 4)
  const GET_QUOTE_RESPONSE := Layout(32, 8)
  const GET_QUOTE_RR := Layout(296, 8)
  const SHIP_ORDER_REQUEST := Layout(260, 4)
  const SHIP_ORDER_RESPONSE := Layout(100, 1)
  const SHIP_ORDER_RR := Layout(360, 4)
  const CREDIT_CARD_INFO := Layout(44, 4)
  const CHARGE_REQUEST := Layout(72, 8)
  const CHARGE_RESPONSE := Layout(40, 1)
  const CHARGE_RR := Layout(112, 8)
  const ORDER_ITEM := Layout(40, 8)
  const ORDER_RESULT := Layout(672, 8)
  const SEND_ORDER_CONFIRMATION_REQUEST := Layout(728, 8)
  const SEND_ORDER_CONFIRMATION_RR := Layout(728, 8)
  const PLACE_ORDER_REQUEST := Layout(252, 4)
  const PLACE_ORDER_RESPONSE := Layout(672, 8)
  const PLACE_ORDER_RR := Layout(928, 8)
  const AD := Layout(200, 1)
  const AD_REQUEST := Layout(1004, 4)
  const AD_RESPONSE := Layout(2004, 4)
  const AD_RR := Layout(3008, 4)

  lemma HeaderStructs()
    ensures IsStruct(RPC, [At(0, INT), At(4, INT), At(8, Chars(0))])
  {}

  lemma CartStructs()
    ensures IsStruct(CART_ITEM, [At(0, Chars(11)), At(12, INT)])
    ensures IsStruct(ADD_ITEM_REQUEST, [At(0, Chars(50)), At(52, CART_ITEM)])
    ensures IsStruct(EMPTY_CART_REQUEST, [At(0, Chars(50))])
    ensures IsStruct(GET_CART_REQUEST, [At(0, Chars(50))])
    ensures IsStruct(CART, [At(0, Chars(50)), At(52, INT), At(56, CART_ITEM.Times(10))])
    ensures IsStruct(GET_CART_RR, [At(0, GET_CART_REQUEST), At(52, CART)])
  {}

  lemma RecommendationStructs()
    ensures IsStruct(LIST_RECOMMENDATIONS_REQUEST, [At(0, Chars(50)), At(52, INT), At(56, Chars(11).Times(10))])
    ensures IsStruct(LIST_RECOMMENDATIONS_RESPONSE, [At(0, INT), At(4, Chars(11).Times(10))])
    ensures IsStruct(LIST_RECOMMENDATIONS_RR, [At(0, LIST_RECOMMENDATIONS_REQUEST),
                                               At(168, LIST_RECOMMENDATIONS_RESPONSE)])
  {}

  lemma CurrencyStructs()
    ensures IsStruct(MONEY, [At(0, Chars(4)), At(8, LONG), At(16, INT)])
    ensures IsStruct(GET_SUPPORTED_CURRENCIES_RESPONSE, [At(0, INT), At(4, Chars(10).Times(6))])
    ensures IsStruct(CURRENCY_CONVERSION_REQUEST, [At(0, MONEY), At(24, Chars(10))])
    ensures IsStruct(CURRENCY_CONVERSION_RR, [At(0, CURRENCY_CONVERSION_REQUEST), At(40, MONEY)])
  {}

  lemma ProductStructs()
    ensures IsStruct(PRODUCT, [At(0, Chars(11)), At(11, Chars(22)), At(33, Chars(83)), At(116, Chars(49)),
                               At(168, MONEY), At(192, INT), At(196, Chars(12).Times(2))])
  {}

  lemma CatalogStructs()
    ensures IsStruct(LIST_PRODUCTS_RESPONSE, [At(0, INT), At(8, PRODUCT.Times(9))])
    ensures IsStruct(GET_PRODUCT_REQUEST, [At(0, Chars(11))])
    ensures IsStruct(GET_PRODUCT_RR, [At(0, GET_PRODUCT_REQUEST), At(16, PRODUCT)])
    ensures IsStruct(SEARCH_PRODUCTS_REQUEST, [At(0, Chars(50))])
    ensures IsStruct(SEARCH_PRODUCTS_RESPONSE, [At(0, INT), At(8, PRODUCT.Times(9))])
    ensures IsStruct(SEARCH_PRODUCTS_RR, [At(0, SEARCH_PRODUCTS_REQUEST), At(56, SEARCH_PRODUCTS_RESPONSE)])
  {}

  lemma QuoteStructs()
    ensures IsStruct(ADDRESS, [At(0, Chars(50)), At(50, Chars(15)), At(65, Chars(15)), At(80, Chars(15)),
                               At(96, INT)])
    ensures IsStruct(GET_QUOTE_REQUEST, [At(0, ADDRESS), At(100, INT), At(104, CART_ITEM.Times(10))])
    ensures IsStruct(GET_QUOTE_RESPONSE, [At(0, INT), At(8, MONEY)])
    ensures IsStruct(GET_QUOTE_RR, [At(0, GET_QUOTE_REQUEST), At(264, GET_QUOTE_RESPONSE)])
  {}

  lemma ShippingStructs()
    ensures IsStruct(SHIP_ORDER_REQUEST, [At(0, ADDRESS), At(100, CART_ITEM.Times(10))])
    ensures IsStruct(SHIP_ORDER_RESPONSE, [At(0, Chars(100))])
    ensures IsStruct(SHIP_ORDER_RR, [At(0, SHIP_ORDER_REQUEST), At(260, SHIP_ORDER_RESPONSE)])
  {}

  lemma PaymentStructs()
    ensures IsStruct(CREDIT_CARD_INFO, [At(0, Chars(30)), At(32, INT), At(36, INT), At(40, INT)])
    ensures IsStruct(CHARGE_REQUEST, [At(0, MONEY), At(24, CREDIT_CARD_INFO)])
    ensures IsStruct(CHARGE_RESPONSE, [At(0, Chars(40))])
    ensures IsStruct(CHARGE_RR, [At(0, CHARGE_REQUEST), At(72, CHARGE_RESPONSE)])
  {}

  lemma EmailStructs()
    ensures IsStruct(ORDER_ITEM, [At(0, CART_ITEM), At(16, MONEY)])
    ensures IsStruct(SEND_ORDER_CONFIRMATION_REQUEST, [At(0, Chars(50)), At(56, ORDER_RESULT)])
    ensures IsStruct(SEND_ORDER_CONFIRMATION_RR, [At(0, SEND_ORDER_CONFIRMATION_REQUEST)])
  {}

  lemma OrderStructs()
    ensures IsStruct(ORDER_RESULT, [At(0, Chars(40)), At(40, Chars(100)), At(144, MONEY), At(168, ADDRESS),
                                    At(268, INT), At(272, ORDER_ITEM.Times(10))])
  {}

  lemma CheckoutStructs()
    ensures IsStruct(PLACE_ORDER_REQUEST, [At(0, Chars(50)), At(50, Chars(5)), At(56, ADDRESS), At(156, Chars(50)),
                                           At(208, CREDIT_CARD_INFO)])
    ensures IsStruct(PLACE_ORDER_RESPONSE, [At(0, ORDER_RESULT)])
    ensures IsStruct(PLACE_ORDER_RR, [At(0, PLACE_ORDER_REQUEST), At(256, PLACE_ORDER_RESPONSE)])
  {}

  lemma AdStructs()
    ensures IsStruct(AD, [At(0, Chars(100)), At(100, Chars(100))])
    ensures IsStruct(AD_REQUEST, [At(0, INT), At(4, Chars(100).Times(10))])
    ensures IsStruct(AD_RESPONSE, [At(0, INT), At(4, AD.Times(10))])
    ensures IsStruct(AD_RR, [At(0, AD_REQUEST), At(1004, AD_RESPONSE)])
  {}

  /** The bodies of the commands, in the order of their numbers. */
  function Body(command: nat): Layout
    requires command <= 14
  {
    match command
    case 0 => ADD_ITEM_REQUEST
    case 1 => GET_CART_RR
    case 2 => EMPTY_CART_REQUEST
    case 3 => LIST_RECOMMENDATIONS_RR
    case 4 => GET_SUPPORTED_CURRENCIES_RESPONSE
    case 5 => CURRENCY_CONVERSION_RR
    case 6 => LIST_PRODUCTS_RESPONSE
    case 7 => GET_PRODUCT_RR
    case 8 => SEARCH_PRODUCTS_RR
    case 9 => GET_QUOTE_RR
    case 10 => SHIP_ORDER_RR
    case 11 => CHARGE_RR
    case 12 => SEND_ORDER_CONFIRMATION_RR
    case 13 => PLACE_ORDER_RR
    case 14 => AD_RR
  }

  /** Every length in the table is the header and that body; every other command is
      unknown. */
  lemma SizesAreLayouts(command: int)
    ensures HEADER == RPC.size
    ensures 0 <= command <= 14 ==> RpcSize(command) == Some(Body(command).size + RPC.size)
    ensures !(0 <= command <= 14) ==> RpcSize(command) == None
  {}
}
