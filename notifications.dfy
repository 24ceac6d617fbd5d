/** The push-message helpers of the app entry point (index.js): how a Ground
    Control data message becomes the record handed to the local-notification
    API. The helpers are modelled as functions that return that record; the
    loop that hashes a txid into a notification id is a method. */
module GcNotifications {
  import opened Text

  // ---------------------------------------------------------------------
  // Data messages

  /** The value `Number(x)` gives for a data field, restricted to integral
      results: NaN when the text does not parse. */
  datatype Num = NaN | Int(n: int)

  /** The fields of a data message the helpers read. A field the message does
      not carry is None; the numeric fields hold what `Number` makes of them. */
  datatype Payload = Payload(
    kind: Option<string>,
    txid: Option<string>,
    confirmations: Option<Num>,
    status: Option<string>,
    amountSat: Option<Num>,
    address: Option<string>,
    channelId: Option<string>,
    title: Option<string>,
    message: Option<string>,
    body: Option<string>)

  /** `remoteMessage?.data || {}` for a message without data. */
  const EMPTY_PAYLOAD := Payload(None, None, None, None, None, None, None, None, None, None)

  /** A string field is truthy when present and not empty. */
  predicate Truthy(f: Option<string>)
  {
    f.Some? && f.value != ""
  }

  /** `f || fallback` on a string field. */
  function OrElse(f: Option<string>, fallback: string): (r: string)
    ensures Truthy(f) ==> r == f.value
    ensures !Truthy(f) ==> r == fallback
  {
    if Truthy(f) then f.value else fallback
  }

  const DEFAULT_CHANNEL := "bluewallet-notifications"
  const APP_NAME := "BlueWallet"
  const KIND_TEST := "gc_test_data"
  const KIND_ONCHAIN := "gc_onchain"

  // ---------------------------------------------------------------------
  // Onchain text

  const SHORT_ADDRESS_MAX := 12
  const ELLIPSIS: char := '…'

  /** `shortAddress`: an address longer than 12 characters is cut to its first
      four and last four characters around an ellipsis. */
  function ShortAddress(addr: Option<string>): (r: string)
    ensures |r| <= SHORT_ADDRESS_MAX
    ensures r == "" <==> !Truthy(addr)
    ensures Truthy(addr) && |addr.value| > SHORT_ADDRESS_MAX ==>
              |r| == 9 && r[..4] == addr.value[..4] && r[4] == ELLIPSIS
              && r[5..] == addr.value[|addr.value| - 4..]
  {
    if !Truthy(addr) then ""
    else if |addr.value| <= SHORT_ADDRESS_MAX then addr.value
    else addr.value[..4] + [ELLIPSIS] + addr.value[|addr.value| - 4..]
  }

  /** An address is shown unchanged exactly when it is at most 12 characters
      long. */
  lemma ShortAddressKeepsShort(addr: string)
    requires addr != ""
    ensures ShortAddress(Some(addr)) == addr <==> |addr| <= SHORT_ADDRESS_MAX
  {
  }

  /** `String(d.status)` when the status is truthy, `''` otherwise. */
  function StatusText(d: Payload): string
  {
    OrElse(d.status, "")
  }

  /** A numeric `confirmations` field. */
  predicate HasConfirmations(d: Payload)
  {
    d.confirmations.Some? && d.confirmations.value.Int?
  }

  /** `isConfirmedFromPayload`: a numeric confirmation count decides; without
      one the lower-cased status must read `confirmed`. */
  function IsConfirmed(d: Payload): (r: bool)
    ensures HasConfirmations(d) ==> (r <==> d.confirmations.value.n >= 1)
    ensures !HasConfirmations(d) ==> (r <==> Lower(StatusText(d)) == "confirmed")
  {
    match d.confirmations
    case Some(Int(n)) => n >= 1
    case _ => Lower(StatusText(d)) == "confirmed"
  }

  /** With a numeric confirmation count the status is ignored. */
  lemma ConfirmationsOverrideStatus(d: Payload, status: Option<string>)
    requires HasConfirmations(d)
    ensures IsConfirmed(d.(status := status)) == IsConfirmed(d)
  {
  }

  lemma {:induction false} LowerUpper(s: string)
    ensures Lower(Upper(s)) == Lower(s)
  {
    var a, b := Lower(Upper(s)), Lower(s);
    assert |a| == |b|;
    forall i | 0 <= i < |a|
      ensures a[i] == b[i]
    {
      var c := s[i];
      assert a[i] == LowerChar(UpperChar(c));
    }
  }

  /** The status is compared without regard to ASCII case. */
  lemma StatusIgnoresCase(d: Payload, status: string)
    requires !HasConfirmations(d)
    ensures IsConfirmed(d.(status := Some(Upper(status)))) == IsConfirmed(d.(status := Some(status)))
  {
    LowerUpper(status);
    assert (Upper(status) == "") == (status == "");
  }

  /** Without a numeric count the status alone decides, compared in lower
      case: a missing or empty status is never confirmed. */
  lemma StatusDecides(d: Payload)
    requires !HasConfirmations(d)
    ensures IsConfirmed(d) <==> Truthy(d.status) && Lower(d.status.value) == "confirmed"
    ensures IsConfirmed(d) ==> |d.status.value| == 9
  {
    if !Truthy(d.status) {
      assert Lower(StatusText(d)) == "";
    }
  }

  /** A numeric `amountSat` field. */
  predicate HasAmount(d: Payload)
  {
    d.amountSat.Some? && d.amountSat.value.Int?
  }

  datatype OnchainText = OnchainText(title: string, message: string)

  const UNCONFIRMED_TITLE := "New unconfirmed transaction"
  const UNCONFIRMED_MESSAGE := "You received new transfer on\n"
  const RECEIVED_MESSAGE := "Received on "

  /** `buildBlueWalletOnchainText`. */
  function BuildOnchainText(d: Payload): (r: OnchainText)
    ensures IsConfirmed(d) && HasAmount(d) ==>
              r == OnchainText("+" + IntToString(d.amountSat.value.n) + " sats",
                               RECEIVED_MESSAGE + ShortAddress(d.address))
    ensures !(IsConfirmed(d) && HasAmount(d)) ==>
              r == OnchainText(UNCONFIRMED_TITLE, UNCONFIRMED_MESSAGE + ShortAddress(d.address))
  {
    var addrShort := ShortAddress(d.address);
    if IsConfirmed(d) && HasAmount(d) then
      OnchainText("+" + IntToString(d.amountSat.value.n) + " sats", RECEIVED_MESSAGE + addrShort)
    else
      OnchainText(UNCONFIRMED_TITLE, UNCONFIRMED_MESSAGE + addrShort)
  }

  /** The amount text is shown exactly for a confirmed payload with a numeric
      amount; a confirmed payload without one still reads as unconfirmed. */
  lemma ReceivedTextIff(d: Payload)
    ensures StartsWith(BuildOnchainText(d).title, "+") <==> IsConfirmed(d) && HasAmount(d)
    ensures StartsWith(BuildOnchainText(d).message, RECEIVED_MESSAGE) <==> IsConfirmed(d) && HasAmount(d)
    ensures var m, a := BuildOnchainText(d).message, ShortAddress(d.address);
      |m| >= |a| && m[|m| - |a|..] == a
  {
    var r := BuildOnchainText(d);
    if !(IsConfirmed(d) && HasAmount(d)) {
      assert r.title[0] == 'N';
      assert r.message[..|RECEIVED_MESSAGE|] != RECEIVED_MESSAGE by {
        assert r.message[0] == 'Y';
      }
    } else {
      assert r.message[..|RECEIVED_MESSAGE|] == RECEIVED_MESSAGE;
    }
  }

  // ---------------------------------------------------------------------
  // Notification id from the txid

  const TWO32: int := 0x1_0000_0000
  const INT32_MIN: int := -0x8000_0000
  const INT32_MAX: int := 0x7fff_ffff
  /** Upper bound of `Math.floor(Math.random() * 1000000000)`, exclusive. */
  const RANDOM_ID_BOUND: int := 1_000_000_000

  /** ToInt32 of an integral Number, which is what `x | 0` and the operand
      conversion of `<<` compute. */
  function Wrap32(x: int): (r: int)
    ensures INT32_MIN <= r <= INT32_MAX
    ensures (x - r) % TWO32 == 0
  {
    var m := x % TWO32;
    if m > INT32_MAX then m - TWO32 else m
  }

  /** ToInt32 is determined by its range and the residue modulo 2^32. */
  lemma Wrap32Unique(x: int, r: int, q: int)
    requires INT32_MIN <= r <= INT32_MAX && x == q * TWO32 + r
    ensures Wrap32(x) == r
  {
    if r >= 0 {
      assert x % TWO32 == r;
    } else {
      assert x % TWO32 == r + TWO32;
    }
  }

  /** Adding a multiple of 2^32 does not change ToInt32. */
  lemma Wrap32Shift(x: int, q: int)
    ensures Wrap32(x + q * TWO32) == Wrap32(x)
  {
    var r := Wrap32(x);
    var p := (x - r) / TWO32;
    assert x == p * TWO32 + r;
    Wrap32Unique(x + q * TWO32, r, p + q);
  }

  /** One pass of the hash loop as written: `((hash << 5) - hash) + code`,
      then `hash |= 0`. */
  function HashStep(h: int, c: char): (r: int)
    ensures INT32_MIN <= r <= INT32_MAX
  {
    Wrap32(Wrap32(h * 32) - h + c as int)
  }

  /** The shift-and-subtract is the multiplication by 31, wrapped to 32 bits. */
  lemma HashStepTimes31(h: int, c: char)
    ensures HashStep(h, c) == Wrap32(31 * h + c as int)
  {
    var a := Wrap32(h * 32);
    var q := (h * 32 - a) / TWO32;
    assert h * 32 == q * TWO32 + a;
    assert a - h + c as int == (31 * h + c as int) + (-q) * TWO32;
    Wrap32Shift(31 * h + c as int, -q);
  }

  /** The value of `hash` after the loop has read the first `n` characters. */
  function HashPrefix(s: string, n: nat): (h: int)
    requires n <= |s|
    ensures INT32_MIN <= h <= INT32_MAX
    decreases n
  {
    if n == 0 then 0 else HashStep(HashPrefix(s, n - 1), s[n - 1])
  }

  /** The value of `hash` after the loop. */
  function TxidHash(s: string): (h: int)
    ensures INT32_MIN <= h <= INT32_MAX
  {
    HashPrefix(s, |s|)
  }

  /** The polynomial hash of the first `n` characters, the sum of
      c_i * 31^(n-1-i), on unbounded integers. */
  function PolyHash(s: string, n: nat): int
    requires n <= |s|
    decreases n
  {
    if n == 0 then 0 else 31 * PolyHash(s, n - 1) + s[n - 1] as int
  }

  /** The loop computes the polynomial hash modulo 2^32, as a signed 32-bit
      value. */
  lemma {:induction false} HashIsPolyHash(s: string, n: nat)
    requires n <= |s|
    ensures HashPrefix(s, n) == Wrap32(PolyHash(s, n))
    decreases n
  {
    if n > 0 {
      var c := s[n - 1];
      HashIsPolyHash(s, n - 1);
      var w := Wrap32(PolyHash(s, n - 1));
      var q := (PolyHash(s, n - 1) - w) / TWO32;
      assert PolyHash(s, n - 1) == q * TWO32 + w;
      HashStepTimes31(w, c);
      assert 31 * PolyHash(s, n - 1) + c as int == (31 * w + c as int) + (31 * q) * TWO32;
      Wrap32Shift(31 * w + c as int, 31 * q);
    }
  }

  /** `notifIdFromTxid` as written: a missing or empty txid takes the random
      id; otherwise a negative hash is negated, which maps -2^31 to 2^31. */
  function NotifIdAsWritten(txid: Option<string>, random: int): (r: int)
    ensures Truthy(txid) ==> 0 <= r <= INT32_MAX + 1
    ensures Truthy(txid) ==> (r == INT32_MAX + 1 <==> TxidHash(txid.value) == INT32_MIN)
    ensures !Truthy(txid) ==> r == random
  {
    if !Truthy(txid) then random
    else
      var h := TxidHash(txid.value);
      if h < 0 then h * -1 else h
  }

  const OVERFLOW_TXID := "f45685b6"

  /** An eight-character hex txid whose hash is -2^31: the id as written is
      2^31, one more than the largest signed 32-bit integer. */
  lemma NotifIdOverflow()
    ensures TxidHash(OVERFLOW_TXID) == INT32_MIN
    ensures NotifIdAsWritten(Some(OVERFLOW_TXID), 0) == INT32_MAX + 1
  {
    OverflowHash(OVERFLOW_TXID);
  }

  /** The loop on OVERFLOW_TXID, one character at a time. */
  lemma OverflowHash(s: string)
    requires s == OVERFLOW_TXID
    ensures HashPrefix(s, |s|) == INT32_MIN
  {
    HashAt(s, 0, 'f', 0, 102);
    HashAt(s, 1, '4', 102, 3214);
    HashAt(s, 2, '5', 3214, 99687);
    HashAt(s, 3, '6', 99687, 3090351);
    HashAt(s, 4, '8', 3090351, 95800937);
    HashAt(s, 5, '5', 95800937, -1325138196);
    HashAt(s, 6, 'b', -1325138196, 1870388982);
    HashAt(s, 7, '6', 1870388982, -2147483648);
  }

  /** One pass of the loop from a known hash value. */
  lemma HashAt(s: string, n: nat, c: char, h: int, r: int)
    requires n < |s| && s[n] == c
    requires HashPrefix(s, n) == h && HashStep(h, c) == r
    ensures HashPrefix(s, n + 1) == r
  {
  }

  /** The corrected `notifIdFromTxid`: the one hash whose negation leaves the
      signed 32-bit range is clamped to the largest signed 32-bit value. */
  function NotifId(txid: Option<string>, random: int): (r: int)
    ensures Truthy(txid) ==> 0 <= r <= INT32_MAX
    ensures !Truthy(txid) ==> r == random
  {
    if !Truthy(txid) then random
    else
      var h := TxidHash(txid.value);
      if h == INT32_MIN then INT32_MAX else if h < 0 then -h else h
  }

  /** The correction changes only the txids whose hash is -2^31. */
  lemma NotifIdAgrees(txid: Option<string>, random: int)
    ensures NotifId(txid, random) == NotifIdAsWritten(txid, random)
            <==> !Truthy(txid) || TxidHash(txid.value) != INT32_MIN
  {
  }

  /** `notifIdFromTxid` with the correction: the for-loop folds the character
      codes into `hash`. */
  method NotifIdFromTxid(txid: Option<string>, random: int) returns (id: int)
    ensures id == NotifId(txid, random)
    ensures Truthy(txid) ==> 0 <= id <= INT32_MAX
  {
    if !Truthy(txid) {
      return random;
    }
    var s := txid.value;
    var hash := 0;
    for i := 0 to |s|
      invariant hash == HashPrefix(s, i)
    {
      hash := Wrap32(Wrap32(hash * 32) - hash + s[i] as int);
    }
    if hash < 0 {
      hash := if hash == INT32_MIN then INT32_MAX else hash * -1;
    }
    id := hash;
  }

  // ---------------------------------------------------------------------
  // Notification records

  /** The argument of `PushNotification.localNotification`. */
  datatype Notification = Notification(
    channelId: string,
    title: string,
    message: string,
    bigText: string,
    subText: string,
    smallIcon: string,
    id: Option<int>,
    tag: Option<string>,
    priority: string,
    importance: string,
    playSound: bool,
    soundName: string,
    visibility: string,
    userInfo: Payload,
    data: Payload)

  /** `postLocalNotificationForOnchain`, with the random id for a missing
      txid passed in as `random`. The id is the one `notifIdFromTxid` computes
      as written, so it leaves the signed 32-bit range for exactly the txids
      whose hash is -2^31. */
  function OnchainNotification(d: Payload, random: int): (r: Notification)
    ensures r.channelId == OrElse(d.channelId, DEFAULT_CHANNEL)
    ensures r.title == BuildOnchainText(d).title
    ensures r.message == r.bigText == BuildOnchainText(d).message
    ensures r.id == Some(NotifIdAsWritten(d.txid, random))
    ensures r.tag == if Truthy(d.txid) then Some(d.txid.value) else None
    ensures 0 <= random < RANDOM_ID_BOUND ==> 0 <= r.id.value <= INT32_MAX + 1
    ensures r.id.value == INT32_MAX + 1 <==>
              if Truthy(d.txid) then TxidHash(d.txid.value) == INT32_MIN else random == INT32_MAX + 1
    ensures r.userInfo == r.data == d
  {
    var text := BuildOnchainText(d);
    Notification(OrElse(d.channelId, DEFAULT_CHANNEL), text.title, text.message, text.message, APP_NAME,
                 "ic_notification", Some(NotifIdAsWritten(d.txid, random)), if Truthy(d.txid) then d.txid else None,
                 "high", "high", true, "default", "private", d, d)
  }

  /** The onchain record with the corrected id: every id fits a signed 32-bit
      integer, and only the id differs from the record as written. */
  function CorrectedOnchainNotification(d: Payload, random: int): (r: Notification)
    ensures r == OnchainNotification(d, random).(id := r.id)
    ensures r.id == Some(NotifId(d.txid, random))
    ensures 0 <= random < RANDOM_ID_BOUND ==> 0 <= r.id.value <= INT32_MAX
    ensures r.id != OnchainNotification(d, random).id <==> Truthy(d.txid) && TxidHash(d.txid.value) == INT32_MIN
  {
    NotifIdAgrees(d.txid, random);
    OnchainNotification(d, random).(id := Some(NotifId(d.txid, random)))
  }

  /** The record posted for OVERFLOW_TXID carries the id 2^31, which a signed
      32-bit parser cannot hold; the corrected record carries 2^31 - 1. */
  lemma OverflowNotification(d: Payload, random: int)
    requires d.txid == Some(OVERFLOW_TXID)
    ensures OnchainNotification(d, random).id == Some(INT32_MAX + 1)
    ensures CorrectedOnchainNotification(d, random).id == Some(INT32_MAX)
  {
    NotifIdOverflow();
  }

  /** Two messages about the same txid post under the same id and tag, so the
      confirmed one replaces the unconfirmed one. */
  lemma SameTxidReplaces(d1: Payload, d2: Payload, random1: int, random2: int)
    requires d1.txid == d2.txid && Truthy(d1.txid)
    ensures OnchainNotification(d1, random1).id == OnchainNotification(d2, random2).id
    ensures OnchainNotification(d1, random1).tag == OnchainNotification(d2, random2).tag
  {
  }

  /** `String(d.message || d.body || '')`. */
  function TestMessage(d: Payload): string
  {
    if Truthy(d.message) then d.message.value else OrElse(d.body, "")
  }

  /** `postLocalNotificationForTest`: nothing is posted without a message
      or body. */
  function TestNotification(d: Payload): (r: Option<Notification>)
    ensures r.None? <==> !Truthy(d.message) && !Truthy(d.body)
    ensures r.Some? ==>
              && r.value.title == OrElse(d.title, APP_NAME)
              && r.value.channelId == OrElse(d.channelId, DEFAULT_CHANNEL)
              && r.value.message == r.value.bigText == TestMessage(d) && TestMessage(d) != ""
              && r.value.id.None? && r.value.tag.None?
  {
    var title := OrElse(d.title, APP_NAME);
    var message := TestMessage(d);
    if message == "" then None
    else
      Some(Notification(OrElse(d.channelId, DEFAULT_CHANNEL), title, message, message, APP_NAME,
                        "ic_notification", None, None, "high", "high", true, "default", "private", d, d))
  }

  /** `String(d.kind || '')`. */
  function Kind(d: Payload): string
  {
    OrElse(d.kind, "")
  }

  /** `handleGcMessage` for a message whose data is `data`. */
  function HandleGcMessage(data: Option<Payload>, random: int): (r: Option<Notification>)
    ensures var d := if data.Some? then data.value else EMPTY_PAYLOAD;
      && (Kind(d) != KIND_TEST && Kind(d) != KIND_ONCHAIN ==> r.None?)
      && (Kind(d) == KIND_ONCHAIN ==> r == Some(OnchainNotification(d, random)))
      && (Kind(d) == KIND_TEST ==> r == TestNotification(d))
  {
    var d := if data.Some? then data.value else EMPTY_PAYLOAD;
    var kind := Kind(d);
    if kind != KIND_TEST && kind != KIND_ONCHAIN then None
    else if kind == KIND_ONCHAIN then Some(OnchainNotification(d, random))
    else TestNotification(d)
  }

  /** A notification carries an id exactly when the message was an onchain
      one, and then the id the txid hashes to as written; a test message
      posts exactly when it has a message or body; a message without data or
      with any other kind posts nothing. */
  lemma RoutingIff(data: Option<Payload>, random: int)
    ensures var d := if data.Some? then data.value else EMPTY_PAYLOAD;
      var r := HandleGcMessage(data, random);
      && (r.Some? && r.value.id.Some? <==> Kind(d) == KIND_ONCHAIN)
      && (Kind(d) == KIND_ONCHAIN ==> r.Some? && r.value.id == Some(NotifIdAsWritten(d.txid, random))
                                      && r.value.title == BuildOnchainText(d).title)
      && (r.Some? && r.value.id.None? <==>
            Kind(d) == KIND_TEST && (Truthy(d.message) || Truthy(d.body)))
      && (r.Some? ==> Kind(d) == KIND_ONCHAIN || Kind(d) == KIND_TEST)
      && (data.None? ==> r.None?)
  {
    var d := if data.Some? then data.value else EMPTY_PAYLOAD;
    assert KIND_TEST != KIND_ONCHAIN by { assert KIND_TEST[3] != KIND_ONCHAIN[3]; }
  }
}
