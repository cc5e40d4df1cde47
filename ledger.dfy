/**
 * The per-device message ledger of `src/utils/messageTracking.ts`: the 32-bit
 * fingerprint hash and the device id derived from it, the usage records kept
 * under one browser-storage item keyed by user and device, and the daily
 * message limits.
 *
 * The browser is outside the model: the fingerprint text, the current date and
 * whether a storage write succeeds are inputs.
 */
module Ledger {
  import opened Wrappers
  import opened JsText

  // ---------------------------------------------------------------------------------------------
  // 32-bit arithmetic of the fingerprint hash

  /** A UTF-16 code unit, what `charCodeAt` returns. */
  newtype CodeUnit = x: int | 0 <= x < 0x1_0000

  const Two32: int := 0x1_0000_0000
  const Two31: int := 0x8000_0000

  predicate IsInt32(x: int) { -Two31 <= x < Two31 }

  /** ECMAScript ToInt32: the signed 32-bit integer congruent to `x` modulo 2^32. */
  function ToInt32(x: int): (r: int)
    ensures IsInt32(r)
    ensures (x - r) % Two32 == 0
  {
    var m := x % Two32;
    if m >= Two31 then m - Two32 else m
  }

  /** Congruent inputs give the same 32-bit value. */
  lemma ToInt32Congruent(a: int, b: int)
    requires (a - b) % Two32 == 0
    ensures ToInt32(a) == ToInt32(b)
  {
    assert a % Two32 == b % Two32;
  }

  /** A 32-bit value is its own ToInt32. */
  lemma ToInt32Fixed(x: int)
    requires IsInt32(x)
    ensures ToInt32(x) == x
  {
  }

  /** A multiple of 2^32 stays one when multiplied. */
  lemma MultipleScaled(d: int, k: int)
    requires d % Two32 == 0
    ensures (k * d) % Two32 == 0
  {
    var q := d / Two32;
    assert d == Two32 * q;
    assert k * d == Two32 * (k * q);
  }

  /** `hash = (((hash << 5) - hash) + char) & (((hash << 5) - hash) + char)`: one step of the loop. */
  function HashStep(h: int, c: CodeUnit): int
  {
    ToInt32(ToInt32(h * 32) - h + c as int)
  }

  /** The shift-and-subtract step is multiplication by 31 modulo 2^32. */
  lemma HashStepIsTimes31(h: int, c: CodeUnit)
    ensures HashStep(h, c) == ToInt32(31 * h + c as int)
  {
    var s := ToInt32(h * 32);
    assert (h * 32 - s) % Two32 == 0;
    assert (ToInt32(h * 32) - h + c as int) - (31 * h + c as int) == -(h * 32 - s);
    ToInt32Congruent(ToInt32(h * 32) - h + c as int, 31 * h + c as int);
  }

  /** The hash of a fingerprint, character by character from the left, starting at 0. */
  function Hash(s: seq<CodeUnit>): int
  {
    if s == [] then 0 else HashStep(Hash(s[..|s| - 1]), s[|s| - 1])
  }

  /** The same polynomial evaluated in unbounded integers: sum of s[i] * 31^(|s|-1-i). */
  function PolyHash(s: seq<CodeUnit>): int
  {
    if s == [] then 0 else 31 * PolyHash(s[..|s| - 1]) + s[|s| - 1] as int
  }

  /** The 32-bit loop computes the unbounded polynomial hash reduced to a signed 32-bit integer. */
  lemma {:induction false} HashIsPolynomial(s: seq<CodeUnit>)
    ensures Hash(s) == ToInt32(PolyHash(s))
    ensures IsInt32(Hash(s))
  {
    if s != [] {
      var s', c := s[..|s| - 1], s[|s| - 1];
      HashIsPolynomial(s');
      HashStepIsTimes31(Hash(s'), c);
      StepCongruent(Hash(s'), PolyHash(s'), c as int);
    }
  }

  /** Congruent hashes stay congruent through one step. */
  lemma StepCongruent(h: int, p: int, c: int)
    requires h == ToInt32(p)
    ensures ToInt32(31 * h + c) == ToInt32(31 * p + c)
  {
    assert (p - h) % Two32 == 0;
    MultipleScaled(p - h, 31);
    assert (31 * h + c) - (31 * p + c) == -(31 * (p - h));
    ToInt32Congruent(31 * h + c, 31 * p + c);
  }

  /** The hash loop of `generateDeviceFingerprint`. */
  method FingerprintHash(fingerprint: seq<CodeUnit>) returns (hash: int)
    ensures hash == Hash(fingerprint)
    ensures hash == ToInt32(PolyHash(fingerprint))
  {
    hash := 0;
    var i := 0;
    while i < |fingerprint|
      invariant 0 <= i <= |fingerprint|
      invariant hash == Hash(fingerprint[..i])
    {
      assert fingerprint[..i + 1][..i] == fingerprint[..i];
      var code := fingerprint[i];
      hash := ToInt32(ToInt32(hash * 32) - hash + code as int);
      i := i + 1;
    }
    assert fingerprint[..i] == fingerprint;
    HashIsPolynomial(fingerprint);
  }

  function Abs(x: int): nat { if x < 0 then -x else x }

  /** `Math.abs(hash).toString(36)`. */
  function DeviceIdOf(fingerprint: seq<CodeUnit>): string
  {
    NatToRadix(Abs(Hash(fingerprint)), 36)
  }

  /** A device id is a non-empty base-36 numeral of at most 2^31, so it never contains "_". */
  lemma DeviceIdShape(fingerprint: seq<CodeUnit>)
    ensures var id := DeviceIdOf(fingerprint);
            && id != ""
            && (forall i :: 0 <= i < |id| ==> IsDigit(id[i]))
            && '_' !in id
            && RadixValue(id, 36) == Abs(Hash(fingerprint)) <= Two31
  {
    HashIsPolynomial(fingerprint);
    RadixRoundTrip(Abs(Hash(fingerprint)), 36);
  }

  /** `generateDeviceFingerprint`, given the joined fingerprint text. */
  method GenerateDeviceFingerprint(fingerprint: seq<CodeUnit>) returns (id: string)
    ensures id == DeviceIdOf(fingerprint)
    ensures id != "" && '_' !in id
  {
    var hash := FingerprintHash(fingerprint);
    id := NatToRadix(Abs(hash), 36);
    DeviceIdShape(fingerprint);
  }

  // ---------------------------------------------------------------------------------------------
  // Usage records

  datatype MessageUsage = MessageUsage(count: int, date: string, userId: Option<string>, deviceId: string)

  /** The `threadcutter_usage` item: absent, a JSON object of records, or text that does not parse. */
  datatype UsageItem = Absent | Records(data: map<string, MessageUsage>) | Corrupt

  const StorageKey := "threadcutter_usage"
  const DeviceIdItemKey := "device_id"

  /** Whether this caller is a signed-in user: a missing or empty user id is a guest. */
  predicate IsUser(userId: Option<string>) { userId.Some? && userId.value != "" }

  /** `user_<userId>_<deviceId>` for a user, `guest_<deviceId>` for a guest. */
  function UsageKey(userId: Option<string>, deviceId: string): string
  {
    if IsUser(userId) then "user_" + userId.value + "_" + deviceId else "guest_" + deviceId
  }

  /** A guest key never coincides with a user key. */
  lemma GuestAndUserKeysDiffer(u: string, d1: string, d2: string)
    requires u != ""
    ensures UsageKey(Some(u), d1) != UsageKey(None, d2)
  {
    assert UsageKey(Some(u), d1)[0] == 'u';
    assert UsageKey(None, d2)[0] == 'g';
  }

  /** Device ids without "_" make user keys identify the user and the device. */
  lemma {:induction false} UserKeyInjective(u1: string, d1: string, u2: string, d2: string)
    requires u1 != "" && u2 != ""
    requires '_' !in d1 && '_' !in d2
    requires UsageKey(Some(u1), d1) == UsageKey(Some(u2), d2)
    ensures u1 == u2 && d1 == d2
  {
    var k := UsageKey(Some(u1), d1);
    assert k == ("user_" + u1 + "_") + d1;
    assert k == ("user_" + u2 + "_") + d2;
    assert k[|k| - |d1| - 1] == '_' && k[|k| - |d2| - 1] == '_';
    if |d1| < |d2| {
      IndexInSuffix(k, d2, |k| - |d1| - 1);
      assert false;
    } else if |d2| < |d1| {
      IndexInSuffix(k, d1, |k| - |d2| - 1);
      assert false;
    }
    assert d1 == k[|k| - |d1|..] == d2;
    assert "user_" + u1 == k[..|k| - |d1| - 1] == "user_" + u2;
    assert u1 == ("user_" + u1)[5..] == ("user_" + u2)[5..] == u2;
  }

  lemma IndexInSuffix(k: string, d: string, i: int)
    requires |d| <= |k| && k[|k| - |d|..] == d && |k| - |d| <= i < |k|
    ensures k[i] in d
  {
    assert k[i] == d[i - (|k| - |d|)];
  }

  /** Guest keys identify the device. */
  lemma GuestKeyInjective(d1: string, d2: string)
    requires UsageKey(None, d1) == UsageKey(None, d2)
    ensures d1 == d2
  {
    assert d1 == UsageKey(None, d1)[6..];
  }

  /** The record read for a key: the stored one if it is from today, otherwise a zero count for today. */
  function ReadUsage(item: UsageItem, key: string, today: string, userId: Option<string>, deviceId: string): (u: MessageUsage)
    ensures u.date == today
    ensures (item.Records? && key in item.data && item.data[key].date == today) ==> u == item.data[key]
    ensures !(item.Records? && key in item.data && item.data[key].date == today) ==>
              u == MessageUsage(0, today, userId, deviceId)
  {
    if item.Records? && key in item.data && item.data[key].date == today then item.data[key]
    else MessageUsage(0, today, userId, deviceId)
  }

  /** The records as read: an absent item is an empty object. */
  function RecordsOf(item: UsageItem): map<string, MessageUsage>
    requires !item.Corrupt?
  {
    if item.Records? then item.data else map[]
  }

  /** The browser's storage, as far as the ledger uses it. */
  class BrowserStorage {
    /** The `device_id` item. */
    var deviceIdItem: Option<string>
    /** The `threadcutter_usage` item. */
    var usageItem: UsageItem

    constructor (deviceIdItem: Option<string>, usageItem: UsageItem)
      ensures this.deviceIdItem == deviceIdItem && this.usageItem == usageItem
    {
      this.deviceIdItem := deviceIdItem;
      this.usageItem := usageItem;
    }

    /** The stored device id, or the fingerprint's when none (or an empty one) is stored. */
    function DeviceIdFor(fingerprint: seq<CodeUnit>): string
      reads this
    {
      OrString(deviceIdItem, DeviceIdOf(fingerprint))
    }

    /** `getDeviceId`: the stored id, or a new one from the fingerprint, which is then stored. */
    method GetDeviceId(fingerprint: seq<CodeUnit>) returns (deviceId: string)
      modifies this
      ensures deviceId == old(DeviceIdFor(fingerprint)) && deviceId != ""
      ensures deviceIdItem == if old(deviceIdItem) == Some(deviceId) then old(deviceIdItem) else Some(deviceId)
      ensures usageItem == old(usageItem)
      ensures forall other: seq<CodeUnit> :: DeviceIdFor(other) == deviceId
    {
      if deviceIdItem.Some? && deviceIdItem.value != "" {
        deviceId := deviceIdItem.value;
      } else {
        deviceId := GenerateDeviceFingerprint(fingerprint);
        deviceIdItem := Some(deviceId);
      }
    }

    /** `getMessageUsage`: today's record for this user on this device. */
    method GetMessageUsage(userId: Option<string>, today: string, fingerprint: seq<CodeUnit>)
      returns (usage: MessageUsage)
      modifies this
      ensures deviceIdItem == Some(old(DeviceIdFor(fingerprint)))
      ensures usageItem == old(usageItem)
      ensures var deviceId := old(DeviceIdFor(fingerprint));
              usage == ReadUsage(usageItem, UsageKey(userId, deviceId), today, userId, deviceId)
    {
      var deviceId := GetDeviceId(fingerprint);
      if usageItem.Corrupt? {
        usage := MessageUsage(0, today, userId, deviceId);
      } else {
        var data := RecordsOf(usageItem);
        var key := if userId.Some? && userId.value != "" then "user_" + userId.value + "_" + deviceId else "guest_" + deviceId;
        if key !in data || data[key].date != today {
          usage := MessageUsage(0, today, userId, deviceId);
        } else {
          usage := data[key];
        }
      }
    }

    /**
     * `updateMessageUsage`: today's count plus `increment`, stored under this user's key.
     * When the stored item does not parse, or the write fails, nothing is stored and the
     * count returned is `increment` alone.
     */
    method UpdateMessageUsage(userId: Option<string>, increment: int, today: string,
                              fingerprint: seq<CodeUnit>, writeSucceeds: bool)
      returns (usage: MessageUsage)
      modifies this
      ensures deviceIdItem == Some(old(DeviceIdFor(fingerprint)))
      ensures var deviceId := old(DeviceIdFor(fingerprint));
              var key := UsageKey(userId, deviceId);
              if old(usageItem).Corrupt? || !writeSucceeds then
                && usage == MessageUsage(increment, today, userId, deviceId)
                && usageItem == old(usageItem)
              else
                && usage == MessageUsage(ReadUsage(old(usageItem), key, today, userId, deviceId).count + increment,
                                         today, userId, deviceId)
                && usageItem == Records(RecordsOf(old(usageItem))[key := usage])
    {
      var deviceId := GetDeviceId(fingerprint);
      if usageItem.Corrupt? {
        usage := MessageUsage(increment, today, userId, deviceId);
      } else {
        var data := RecordsOf(usageItem);
        var key := UsageKey(userId, deviceId);
        var currentUsage := GetMessageUsage(userId, today, fingerprint);
        var newUsage := MessageUsage(currentUsage.count + increment, today, userId, deviceId);
        data := data[key := newUsage];
        if writeSucceeds {
          usageItem := Records(data);
          usage := newUsage;
        } else {
          usage := MessageUsage(increment, today, userId, deviceId);
        }
      }
    }

    /** `resetMessageUsage`: removes this user's record; a failure leaves the item as it was. */
    method ResetMessageUsage(userId: Option<string>, fingerprint: seq<CodeUnit>, writeSucceeds: bool)
      modifies this
      ensures deviceIdItem == Some(old(DeviceIdFor(fingerprint)))
      ensures var key := UsageKey(userId, old(DeviceIdFor(fingerprint)));
              usageItem == if old(usageItem).Corrupt? || !writeSucceeds then old(usageItem)
                           else Records(RecordsOf(old(usageItem)) - {key})
    {
      var deviceId := GetDeviceId(fingerprint);
      if !usageItem.Corrupt? {
        var data := RecordsOf(usageItem);
        var key := UsageKey(userId, deviceId);
        data := data - {key};
        if writeSucceeds {
          usageItem := Records(data);
        }
      }
    }
  }

  // ---------------------------------------------------------------------------------------------
  // Properties of the records

  /** What a successful update stores. */
  function Updated(item: UsageItem, key: string, today: string, userId: Option<string>, deviceId: string, increment: int): UsageItem
    requires !item.Corrupt?
  {
    Records(RecordsOf(item)[key := MessageUsage(ReadUsage(item, key, today, userId, deviceId).count + increment, today, userId, deviceId)])
  }

  /** Reading right after a successful update gives the updated record back. */
  lemma ReadAfterUpdate(item: UsageItem, key: string, today: string, userId: Option<string>, deviceId: string, increment: int)
    requires !item.Corrupt?
    ensures ReadUsage(Updated(item, key, today, userId, deviceId, increment), key, today, userId, deviceId).count
            == ReadUsage(item, key, today, userId, deviceId).count + increment
  {
  }

  /** Successive updates on one day add up. */
  lemma {:induction false} UpdatesAccumulate(item: UsageItem, key: string, today: string, userId: Option<string>,
                                             deviceId: string, increments: seq<int>)
    requires !item.Corrupt?
    ensures ReadUsage(UpdatedMany(item, key, today, userId, deviceId, increments), key, today, userId, deviceId).count
            == ReadUsage(item, key, today, userId, deviceId).count + Sum(increments)
    decreases |increments|
  {
    if increments != [] {
      var next := Updated(item, key, today, userId, deviceId, increments[0]);
      ReadAfterUpdate(item, key, today, userId, deviceId, increments[0]);
      UpdatesAccumulate(next, key, today, userId, deviceId, increments[1..]);
    }
  }

  function Sum(xs: seq<int>): int { if xs == [] then 0 else xs[0] + Sum(xs[1..]) }

  function UpdatedMany(item: UsageItem, key: string, today: string, userId: Option<string>,
                       deviceId: string, increments: seq<int>): UsageItem
    requires !item.Corrupt?
    decreases |increments|
  {
    if increments == [] then item
    else UpdatedMany(Updated(item, key, today, userId, deviceId, increments[0]), key, today, userId, deviceId, increments[1..])
  }

  /** An update touches its own key only. */
  lemma UpdateKeepsOtherKeys(item: UsageItem, key: string, other: string, today: string, day: string,
                             userId: Option<string>, otherUser: Option<string>, deviceId: string, otherDevice: string, increment: int)
    requires !item.Corrupt? && other != key
    ensures ReadUsage(Updated(item, key, today, userId, deviceId, increment), other, day, otherUser, otherDevice)
            == ReadUsage(item, other, day, otherUser, otherDevice)
  {
  }

  /** The count starts again from zero on another day. */
  lemma NewDayStartsAtZero(item: UsageItem, key: string, today: string, tomorrow: string,
                           userId: Option<string>, deviceId: string, increment: int)
    requires !item.Corrupt? && tomorrow != today
    ensures ReadUsage(Updated(item, key, today, userId, deviceId, increment), key, tomorrow, userId, deviceId).count == 0
  {
  }

  /** After a reset the count reads as zero, and other keys read as before. */
  lemma ReadAfterReset(item: UsageItem, key: string, other: string, today: string, userId: Option<string>, deviceId: string)
    requires !item.Corrupt?
    ensures ReadUsage(Records(RecordsOf(item) - {key}), key, today, userId, deviceId).count == 0
    ensures other != key ==>
              ReadUsage(Records(RecordsOf(item) - {key}), other, today, userId, deviceId) == ReadUsage(item, other, today, userId, deviceId)
  {
  }

  // ---------------------------------------------------------------------------------------------
  // Limits

  /** `getMessageLimit`: -1 (unlimited) for premium, 3 for guests, 5 for signed-in free users. */
  function GetMessageLimit(isPremium: bool, isGuest: bool): int
  {
    if isPremium then -1 else if isGuest then 3 else 5
  }

  /** Only premium is unlimited, and a guest may send fewer messages than a signed-in free user. */
  lemma LimitsOrdered(isPremium: bool, isGuest: bool)
    ensures GetMessageLimit(isPremium, isGuest) < 0 <==> isPremium
    ensures !isPremium ==> 0 < GetMessageLimit(false, true) < GetMessageLimit(false, false)
  {
  }
}
