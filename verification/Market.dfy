/** The values every part of the market maker shares: orders, quotes, configuration. */
module Market {

  datatype Option<+T> = None | Some(value: T)

  datatype Side = Buy | Sell

  /** A price level the strategy wants on the book. */
  datatype Quote = Quote(side: Side, price: real, size: real)

  /** A resting order as the venue lists it. `worstFee` is None when the stored bound does not
      parse; `expiry` is 0 when the venue does not report one. */
  datatype Order = Order(
    id: string,
    side: Side,
    price: real,
    size: real,
    postOnly: bool,
    worstFee: Option<int>,
    expiry: int,
    createdAt: Option<int>)

  /** The order identity a level is placed with: one nonce, one venue order id. */
  datatype Identity = Identity(orderID: string, nonce: nat)

  /** The configuration the order-management loop reads. Times are whole seconds. */
  datatype Config = Config(
    staleBPS: real,
    minQuoteLifetime: int,
    minReplaceMoveBPS: real,
    expiryMargin: int,
    orderExpiry: int,
    adoptSizeTolerance: real,
    maxCancelsPerMinute: int,
    postOnly: bool,
    dryRun: bool,
    protectedPrefixes: seq<string>)

  /** What the loader accepts for the two expiry settings (internal/config/config.go). */
  predicate ExpiryConfigValid(cfg: Config) {
    0 < cfg.expiryMargin && 2 * cfg.expiryMargin < cfg.orderExpiry
  }

  function Abs(x: real): (r: real)
    ensures r >= 0.0
    ensures r == x || r == -x
  {
    if x < 0.0 then -x else x
  }

  function Max(x: real, y: real): (r: real)
    ensures r >= x && r >= y && (r == x || r == y)
  {
    if x > y then x else y
  }

  function Min(x: real, y: real): (r: real)
    ensures r <= x && r <= y && (r == x || r == y)
  {
    if x < y then x else y
  }

  /** White space as Unicode has it. */
  predicate IsBlank(c: char) {
    var n := c as int;
    9 <= n <= 13 || n == 0x20 || n == 0x85 || n == 0xA0 || n == 0x1680 || 0x2000 <= n <= 0x200A
    || n == 0x2028 || n == 0x2029 || n == 0x202F || n == 0x205F || n == 0x3000
  }

  function TrimLeft(s: string): string {
    if s != "" && IsBlank(s[0]) then TrimLeft(s[1..]) else s
  }

  function TrimRight(s: string): string {
    if s != "" && IsBlank(s[|s| - 1]) then TrimRight(s[..|s| - 1]) else s
  }

  function Trim(s: string): string {
    TrimRight(TrimLeft(s))
  }

  /** Orders under a protected prefix are never cancelled by the bot; blank ids and blank
      prefixes protect nothing. */
  predicate Protected(cfg: Config, orderID: string) {
    Trim(orderID) != "" &&
    exists i :: 0 <= i < |cfg.protectedPrefixes| &&
                Trim(cfg.protectedPrefixes[i]) != "" && Trim(cfg.protectedPrefixes[i]) <= Trim(orderID)
  }

  ghost predicate Blanks(s: string) {
    forall i :: 0 <= i < |s| ==> IsBlank(s[i])
  }

  lemma {:induction false} TrimLeftDrops(blanks: string, s: string)
    requires Blanks(blanks)
    ensures TrimLeft(blanks + s) == TrimLeft(s)
  {
    hide IsBlank;
    if blanks == "" {
      assert blanks + s == s;
    } else {
      assert (blanks + s)[1..] == blanks[1..] + s;
      TrimLeftDrops(blanks[1..], s);
    }
  }

  lemma {:induction false} TrimRightDrops(s: string, blanks: string)
    requires Blanks(blanks)
    ensures TrimRight(s + blanks) == TrimRight(s)
  {
    hide IsBlank;
    if blanks == "" {
      assert s + blanks == s;
    } else {
      assert (s + blanks)[..|s + blanks| - 1] == s + blanks[..|blanks| - 1];
      TrimRightDrops(s, blanks[..|blanks| - 1]);
    }
  }

  /** Trimming takes the blanks off both ends and nothing else. */
  lemma TrimTakesBlanksOff(before: string, s: string, after: string)
    requires Blanks(before) && Blanks(after) && (s == "" || Clean(s))
    ensures Trim(before + s + after) == s
  {
    hide IsBlank;
    assert before + s + after == before + (s + after);
    TrimLeftDrops(before, s + after);
    if s == "" {
      assert s + after == after + "";
      TrimLeftDrops(after, "");
    } else {
      TrimRightDrops(s, after);
    }
  }

  /** A blank id is not protected, and blank prefixes protect nothing. */
  lemma BlankProtectsNothing(cfg: Config, id: string)
    requires Blanks(id) || forall i :: 0 <= i < |cfg.protectedPrefixes| ==> Blanks(cfg.protectedPrefixes[i])
    ensures !Protected(cfg, id)
  {
    hide IsBlank;
    forall s: string | Blanks(s) ensures Trim(s) == "" {
      assert s + "" + "" == s;
      TrimTakesBlanksOff(s, "", "");
    }
  }

  /** Not blank, and no blanks around it. */
  predicate Clean(s: string) {
    s != "" && !IsBlank(s[0]) && !IsBlank(s[|s| - 1])
  }

  /** Between clean prefixes and a clean id, protection is being under one of the prefixes, letter by letter. */
  lemma ProtectedExactlyUnderAPrefix(cfg: Config, id: string)
    requires Clean(id) && forall i :: 0 <= i < |cfg.protectedPrefixes| ==> Clean(cfg.protectedPrefixes[i])
    ensures Protected(cfg, id) <==>
              exists i :: 0 <= i < |cfg.protectedPrefixes| && |cfg.protectedPrefixes[i]| <= |id| &&
                          forall k :: 0 <= k < |cfg.protectedPrefixes[i]| ==> id[k] == cfg.protectedPrefixes[i][k]
  {
    forall i | 0 <= i < |cfg.protectedPrefixes|
      ensures Trim(cfg.protectedPrefixes[i]) <= Trim(id) <==>
                |cfg.protectedPrefixes[i]| <= |id| && forall k :: 0 <= k < |cfg.protectedPrefixes[i]| ==> id[k] == cfg.protectedPrefixes[i][k]
    {
    }
  }

  /** The ladder is the source of truth; a result with only a best quote stands for one level. */
  function TargetsOf(ladder: seq<Quote>, best: Option<Quote>): seq<Quote> {
    if ladder == [] && best.Some? then [best.value] else ladder
  }

  ghost predicate DistinctIDs(orders: seq<Order>) {
    forall i, j :: 0 <= i < j < |orders| ==> orders[i].id != orders[j].id
  }

  /** `p` is a better price than `q` for a maker on this side: bids high, asks low. */
  predicate Better(side: Side, p: real, q: real) {
    match side
    case Buy => p > q
    case Sell => p < q
  }
}
