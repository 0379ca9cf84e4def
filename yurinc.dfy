/**
 The Hyprland bridge daemon (yurinc.py): every `Notify` call is turned into one
 `hyprctl notify <icon> <timeout> 0 <message>` command. The daemon keeps no state;
 what is modelled is the argument vector it hands to the subprocess and the reply.
 */
module Yurinc {
  import opened FreedesktopNotifications

  /** `URGENCY_TO_ICON`: low, normal and critical urgency to Hyprland's hint, info and warning icons. */
  const UrgencyToIcon: map<int, nat> := map[0 := 2, 1 := 1, 2 := 0]

  /** The icon for any urgency that is not a key of `UrgencyToIcon`. */
  const OtherIcon: nat := 6

  /** The urgency assumed when the hints carry none. */
  const DefaultUrgency: HintValue := Int(1)

  /** The display time, in milliseconds, used when `expire_timeout` is not positive. */
  const DefaultTimeout: int32 := 5000

  /** Python's `TypeError` for a dictionary lookup with an unhashable key. */
  datatype NotifyError = UnhashableUrgency

  /** How a hint value behaves as a key of a Python dictionary with integer keys. */
  datatype DictKey = IntegerKey(k: int) | OtherKey | Unhashable

  /** `True` and `1`, and `2.0` and `2`, are the same dictionary key; lists and dicts are no key at all. */
  function AsDictKey(v: HintValue): DictKey
  {
    match v
    case Int(i) => IntegerKey(i)
    case Bool(b) => IntegerKey(if b then 1 else 0)
    case Double(d) => if d.Floor as real == d then IntegerKey(d.Floor) else OtherKey
    case Str(_) => OtherKey
    case Container => Unhashable
  }

  /** `hints.get("urgency", 1)`. */
  function Urgency(hints: map<string, HintValue>): (u: HintValue)
    ensures "urgency" in hints ==> u == hints["urgency"]
    ensures "urgency" !in hints ==> AsDictKey(u) == IntegerKey(1)
  {
    if "urgency" in hints then hints["urgency"] else DefaultUrgency
  }

  /** True of the three urgency levels of the notification specification. */
  predicate IsUrgencyLevel(v: HintValue)
  {
    AsDictKey(v).IntegerKey? && 0 <= AsDictKey(v).k <= 2
  }

  /** `URGENCY_TO_ICON.get(urgency, 6)`. */
  function Icon(urgency: HintValue): (r: Result<nat, NotifyError>)
    ensures r.Err? <==> urgency.Container?
    ensures r.Ok? ==> r.value in {0, 1, 2, 6}
    ensures r.Ok? ==> (r.value == OtherIcon <==> !IsUrgencyLevel(urgency))
    ensures IsUrgencyLevel(urgency) ==> r == Ok(2 - AsDictKey(urgency).k)
  {
    match AsDictKey(urgency)
    case Unhashable => Err(UnhashableUrgency)
    case OtherKey => Ok(OtherIcon)
    case IntegerKey(k) => Ok(if k in UrgencyToIcon then UrgencyToIcon[k] else OtherIcon)
  }

  /** The text shown: `"{summary}: {body}"`, or the summary alone when the body is empty. */
  function Message(summary: string, body: string): (m: string)
    ensures body == [] ==> m == summary
    ensures body != [] ==> |m| == |summary| + 2 + |body| && m[|summary|..|summary| + 2] == ": "
    ensures SplitMessage(m, |summary|) == (summary, body)
  {
    if body == [] then
      assert summary[..|summary|] == summary;
      summary
    else
      var m := summary + ": " + body;
      assert m[..|summary|] == summary && m[|summary| + 2..] == body;
      m
  }

  /**
   Recovers summary and body from a message whose summary is `n` characters long:
   a message no longer than the summary has an empty body, otherwise the body
   follows the two-character separator.
   */
  function SplitMessage(m: string, n: nat): (string, string)
    requires n <= |m|
  {
    if |m| <= n + 2 then (m[..n], []) else (m[..n], m[n + 2..])
  }

  /** `expire_timeout if expire_timeout > 0 else 5000`: both 0 and -1 get the default. */
  function Timeout(expireTimeout: int32): (t: int32)
    ensures t > 0
    ensures expireTimeout > 0 ==> t == expireTimeout
    ensures expireTimeout <= 0 ==> t == DefaultTimeout
  {
    if expireTimeout > 0 then expireTimeout else DefaultTimeout
  }

  predicate IsDigit(c: char)
  {
    '0' <= c <= '9'
  }

  predicate AllDigits(s: string)
  {
    forall i | 0 <= i < |s| :: IsDigit(s[i])
  }

  /** A decimal numeral as Python's `str` writes a non-negative integer: no leading zero. */
  predicate IsCanonicalDecimal(s: string)
  {
    |s| > 0 && AllDigits(s) && (s[0] == '0' ==> |s| == 1)
  }

  function DigitChar(d: nat): (c: char)
    requires d < 10
    ensures IsDigit(c)
  {
    ('0' as int + d) as char
  }

  /** `str(n)` for a non-negative integer. */
  function Decimal(n: nat): (s: string)
    ensures IsCanonicalDecimal(s)
    ensures s[0] == '0' <==> n == 0
  {
    if n < 10 then [DigitChar(n)] else Decimal(n / 10) + [DigitChar(n % 10)]
  }

  /** The value of a decimal numeral (the inverse of `Decimal`). */
  function ParseDecimal(s: string): nat
    requires AllDigits(s)
  {
    if s == [] then 0
    else ParseDecimal(s[..|s| - 1]) * 10 + (s[|s| - 1] as int - '0' as int)
  }

  lemma {:induction false} ParseDecimalOfDecimal(n: nat)
    ensures ParseDecimal(Decimal(n)) == n
  {
    var s := Decimal(n);
    if n >= 10 {
      assert s[..|s| - 1] == Decimal(n / 10);
      ParseDecimalOfDecimal(n / 10);
    }
  }

  lemma {:induction false} ParseDecimalPositive(s: string)
    requires AllDigits(s) && |s| > 0 && s[0] != '0'
    ensures ParseDecimal(s) > 0
  {
    if |s| > 1 {
      ParseDecimalPositive(s[..|s| - 1]);
    }
  }

  lemma {:induction false} DecimalOfParseDecimal(s: string)
    requires IsCanonicalDecimal(s)
    ensures Decimal(ParseDecimal(s)) == s
  {
    if |s| > 1 {
      var t := s[..|s| - 1];
      ParseDecimalPositive(t);
      DecimalOfParseDecimal(t);
      assert s == t + [s[|s| - 1]];
    }
  }

  /** The argument vector given to `subprocess.run`. */
  function HyprctlArgv(icon: nat, timeout: nat, message: string): seq<string>
  {
    ["hyprctl", "notify", Decimal(icon), Decimal(timeout), "0", message]
  }

  /** What one `Notify` call does: the command it runs and the id it replies with. */
  datatype NotifyOutcome = NotifyOutcome(argv: seq<string>, id: uint32)

  /**
   `NotificationDaemon.Notify`. A failure of the command itself is caught and does
   not change the reply; an unhashable urgency raises before the command is run.
   `appName`, `replacesId`, `appIcon` and `actions` are not used.
   */
  function Notify(appName: string, replacesId: uint32, appIcon: string, summary: string,
                  body: string, actions: seq<string>, hints: map<string, HintValue>,
                  expireTimeout: int32): (r: Result<NotifyOutcome, NotifyError>)
    ensures r.Err? <==> Urgency(hints).Container?
    ensures r.Ok? ==> r.value.id == 0
  {
    match Icon(Urgency(hints))
    case Err(e) => Err(e)
    case Ok(icon) =>
      Ok(NotifyOutcome(HyprctlArgv(icon, Timeout(expireTimeout), Message(summary, body)), 0))
  }

  /**
   The command a `Notify` call runs has six arguments: `hyprctl notify`, the icon
   code in {0, 1, 2, 6}, the positive display time, the literal `0` (no colour)
   and the whole message as one argument; each number is written so that it reads
   back as itself. The reply is 0 whatever `replacesId` was.
   */
  lemma NotifyCommand(appName: string, replacesId: uint32, appIcon: string, summary: string,
                      body: string, actions: seq<string>, hints: map<string, HintValue>,
                      expireTimeout: int32)
    requires !Urgency(hints).Container?
    ensures var r := Notify(appName, replacesId, appIcon, summary, body, actions, hints,
                            expireTimeout);
            && r.Ok?
            && var argv := r.value.argv;
            && |argv| == 6
            && argv[0] == "hyprctl" && argv[1] == "notify" && argv[4] == "0"
            && IsCanonicalDecimal(argv[2]) && IsCanonicalDecimal(argv[3])
            && Ok(ParseDecimal(argv[2])) == Icon(Urgency(hints))
            && ParseDecimal(argv[2]) in {0, 1, 2, 6}
            && ParseDecimal(argv[3]) == Timeout(expireTimeout) > 0
            && argv[5] == Message(summary, body)
            && r.value.id == 0
  {
    var icon := Icon(Urgency(hints)).value;
    ParseDecimalOfDecimal(icon);
    ParseDecimalOfDecimal(Timeout(expireTimeout));
  }

  /** `CloseNotification` does nothing: the bridge keeps no notifications to close. */
  function CloseNotification(id: uint32): ()
  {
    ()
  }

  /** The capabilities `GetCapabilities` announces: the body is shown, nothing more. */
  function GetCapabilities(): (caps: seq<string>)
    ensures caps == ["body"]
  {
    ["body"]
  }

  /** `(name, vendor, version, spec_version)` as `GetServerInformation` returns it. */
  function GetServerInformation(): (info: (string, string, string, string))
    ensures info.3 == "1.2"
  {
    ("HyprlandNotifier", "Custom", "1.0", "1.2")
  }
}
