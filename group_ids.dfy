/**
 * Group ids: the string 'group_' followed by the clock reading in decimal, as
 * `'group_' + Date.now()` builds them (server.js:82).
 */
module GroupIds {
  import opened ChatTypes

  const GROUP_PREFIX: string := "group_"

  predicate IsDigit(c: char) {
    '0' <= c <= '9'
  }

  function DigitChar(d: nat): (c: char)
    requires d < 10
    ensures IsDigit(c)
  {
    "0123456789"[d]
  }

  function DigitValue(c: char): (d: nat)
    requires IsDigit(c)
    ensures d < 10
  {
    (c as int) - ('0' as int)
  }

  /**
   * The decimal rendering of `n` without leading zeros. JavaScript converts a
   * number to this string when it is below 1e21; larger numbers get exponent
   * notation, which no `Date.now()` reading reaches.
   */
  function Decimal(n: nat): (s: string)
    ensures |s| > 0
    ensures forall i :: 0 <= i < |s| ==> IsDigit(s[i])
    ensures n >= 10 ==> |s| >= 2
    ensures n > 0 ==> s[0] != '0'
  {
    if n < 10 then [DigitChar(n)] else Decimal(n / 10) + [DigitChar(n % 10)]
  }

  /** Reads a string of decimal digits back as a number (the inverse of `Decimal`). */
  function ParseDecimal(s: string): nat
    requires forall i :: 0 <= i < |s| ==> IsDigit(s[i])
  {
    if s == [] then 0 else 10 * ParseDecimal(s[..|s| - 1]) + DigitValue(s[|s| - 1])
  }

  /** Reading back the rendering of a number gives the number. */
  lemma {:induction false} ParseDecimalInverts(n: nat)
    ensures ParseDecimal(Decimal(n)) == n
  {
    if n >= 10 {
      var prefix := Decimal(n / 10);
      var s := prefix + [DigitChar(n % 10)];
      assert s[..|s| - 1] == prefix;
      ParseDecimalInverts(n / 10);
    }
  }

  /** The id `create_group` assigns when the clock reads `clock`. */
  function GroupIdFor(clock: nat): (id: GroupId)
    ensures GROUP_PREFIX < id
    ensures id != GLOBAL_ROOM
  {
    var id := GROUP_PREFIX + Decimal(clock);
    assert id[5] == '_' && GLOBAL_ROOM[5] == 'l';
    id
  }

  /**
   * Two `create_group` calls receive the same id exactly when they read the
   * same clock value: ids are unique only as long as no two groups are created
   * within the same clock tick.
   */
  lemma GroupIdCollision(a: nat, b: nat)
    ensures GroupIdFor(a) == GroupIdFor(b) <==> a == b
  {
    if GroupIdFor(a) == GroupIdFor(b) {
      assert Decimal(a) == GroupIdFor(a)[|GROUP_PREFIX|..];
      assert Decimal(b) == GroupIdFor(b)[|GROUP_PREFIX|..];
      ParseDecimalInverts(a);
      ParseDecimalInverts(b);
    }
  }
}
