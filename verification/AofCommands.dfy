/**
 The commands the log treats in a way of their own: SELECT, and commands that set
 a time to live. A relative time is logged as an absolute one, so that replaying
 the command later has the effect it had.
 */
module AofCommands {
  import opened Decimal
  import opened AofLog

  const SELECT: bytes := [83, 69, 76, 69, 67, 84]
  const EXPIRE: bytes := [69, 88, 80, 73, 82, 69]
  const PEXPIRE: bytes := [80, 69, 88, 80, 73, 82, 69]
  const EXPIREAT: bytes := [69, 88, 80, 73, 82, 69, 65, 84]
  const PEXPIREAT: bytes := [80, 69, 88, 80, 73, 82, 69, 65, 84]
  const SET: bytes := [83, 69, 84]
  const PX: bytes := [80, 88]
  const PXAT: bytes := [80, 88, 65, 84]

  function Lower(b: byte): byte {
    if 65 <= b <= 90 then b + 32 else b
  }

  /** Commands and options are found whatever the case of their letters. */
  predicate Named(s: bytes, word: bytes) {
    |s| == |word| && forall i | 0 <= i < |word| :: Lower(s[i]) == Lower(word[i])
  }

  predicate IsSelect(cmd: Command) {
    |cmd| == 2 && Named(cmd[0], SELECT)
  }

  function SelectDb(db: nat): Command {
    [SELECT, Print(db)]
  }

  /** EXPIRE, PEXPIRE and EXPIREAT. */
  predicate IsExpire(cmd: Command) {
    |cmd| == 3 && (Named(cmd[0], EXPIRE) || Named(cmd[0], PEXPIRE) || Named(cmd[0], EXPIREAT))
  }

  /** A SET with a time to live in milliseconds; commands with other units reach the log as one. */
  predicate IsSetPx(cmd: Command) {
    |cmd| >= 5 && Named(cmd[0], SET) && Named(cmd[3], PX)
  }

  /** catAppendOnlyExpireAtCommand: milliseconds, and from now on where the time is relative. */
  function When(cmd: Command, now: int): int
    requires IsExpire(cmd)
  {
    var t := Parse(cmd[2]);
    var ms := if Named(cmd[0], PEXPIRE) then t else t * 1000;
    if Named(cmd[0], EXPIREAT) then ms else ms + now
  }

  /** What feedAppendOnlyFile logs for a command. */
  function Translate(cmd: Command, now: int): Command {
    if IsExpire(cmd) then [PEXPIREAT, cmd[1], PrintInt(When(cmd, now))]
    else if IsSetPx(cmd) then [cmd[0], cmd[1], cmd[2], PXAT, PrintInt(Parse(cmd[4]) + now)]
    else cmd
  }

  /** What a command executed at a time does: which key expires when, and with which new value; any other command is
      taken as it is. */
  datatype Effect = Expires(key: bytes, at: int) | Sets(key: bytes, value: bytes, at: int) | Does(cmd: Command)

  function EffectOf(cmd: Command, now: int): Effect {
    if |cmd| == 3 && Named(cmd[0], EXPIRE) then Expires(cmd[1], now + 1000 * Parse(cmd[2]))
    else if |cmd| == 3 && Named(cmd[0], PEXPIRE) then Expires(cmd[1], now + Parse(cmd[2]))
    else if |cmd| == 3 && Named(cmd[0], EXPIREAT) then Expires(cmd[1], 1000 * Parse(cmd[2]))
    else if |cmd| == 3 && Named(cmd[0], PEXPIREAT) then Expires(cmd[1], Parse(cmd[2]))
    else if |cmd| >= 5 && Named(cmd[0], SET) && Named(cmd[3], PX) then Sets(cmd[1], cmd[2], now + Parse(cmd[4]))
    else if |cmd| >= 5 && Named(cmd[0], SET) && Named(cmd[3], PXAT) then Sets(cmd[1], cmd[2], Parse(cmd[4]))
    else Does(cmd)
  }

  /** Whenever the logged command is replayed, it does what the command did when it was executed. */
  lemma TranslationKeepsEffect(cmd: Command, now: int, later: int)
    ensures EffectOf(Translate(cmd, now), later) == EffectOf(cmd, now)
  {
    if IsExpire(cmd) {
      PrintIntParse(When(cmd, now));
    } else if IsSetPx(cmd) {
      PrintIntParse(Parse(cmd[4]) + now);
    }
  }

  /** Translation never makes a SELECT. */
  lemma TranslationKeepsSelect(cmd: Command, now: int)
    ensures IsSelect(Translate(cmd, now)) <==> IsSelect(cmd)
  {
  }
}
