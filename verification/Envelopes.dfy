/** The queue entry's envelope: everything but the message itself. */
module Envelopes {
  import opened Wrappers
  import opened Text

  /** A recipient, and whether delivery to it is still to be attempted. */
  datatype Recipient = Recipient(address: string, pending: bool)

  datatype Header = Header(name: string, value: string)

  datatype Envelope = Envelope(
    msgType: int,
    msgId: Option<string>,
    token: Option<string>,
    from: Option<string>,
    mclass: Option<string>,
    vaspId: Option<string>,
    vasId: Option<string>,
    url1: Option<string>,
    url2: Option<string>,
    hdrs: seq<Header>,
    to: seq<Recipient>,
    subject: Option<string>,
    created: int,
    sendTime: int,
    lastTry: int,
    expiry: int,
    lastAccess: int,
    dlr: bool,
    attempts: int,
    size: int,
    billed: bool,
    amount: real,
    mdata: Option<string>,
    fromProxy: Option<string>,
    viaProxy: Option<string>,
    source: string)
  {
    /** The numbers fit their C types: time_t and long of 64 bits, an unsigned long, a non-negative bill. */
    predicate InRange() {
      && IsLong(created) && IsLong(sendTime) && IsLong(lastTry) && IsLong(expiry) && IsLong(lastAccess) && IsLong(attempts)
      && 0 <= size < ULONG_SIZE && amount >= 0.0
    }
  }

  /** One week, in seconds. */
  const DEFAULT_EXPIRE: int := 3600 * 24 * 7

  // ---- addresses ----

  /** mms_validate_address. The search results enter the arithmetic even when they are -1. */
  predicate ValidAddress(s: string) {
    IndexOf(s, '@') > 0 ||
    (IndexOf(s, '/') >= 0 &&
     (SearchNoCase(s, "PLMN") + 4 == |s| || SearchNoCase(s, "IPv4") + 4 == |s| || SearchNoCase(s, "IPv6") + 4 == |s|))
  }

  /** isphonenum: digits, after an optional plus sign. */
  predicate IsPhoneNumber(s: string) {
    if s != "" && s[0] == '+' then AllDigits(s[1..]) else AllDigits(s)
  }

  predicate AllDigits(s: string) {
    forall i :: 0 <= i < |s| ==> IsDigit(s[i])
  }

  /** _mms_fixup_address with no prefixes to strip and the suffix kept. */
  function FixupAddress(s: string): string {
    if IndexOf(s, '@') > 0 then s
    else
      var i := SearchNoCase(s, "/TYPE=");
      var base := if i > 0 then s[..i] else s;
      var suffix := if i > 0 then s[i..] else "";
      if IsPhoneNumber(base) || EqNoCase(suffix, "/TYPE=PLMN") then base + "/TYPE=PLMN"
      else if i > 0 then base + suffix
      else base + "@unknown"
  }

  /** What the queue reader makes of a stored address. */
  function Readdress(s: string): string {
    if ValidAddress(s) then s else FixupAddress(s)
  }
}
