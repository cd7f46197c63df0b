/**
 The listing of events sorts RFC 3339 texts (internal/store/queries/nfe.sql). Those texts, and that the
 order of NfeStore is theirs.
 */
module NfeText {
  import opened Wrappers
  import opened NfeTypes
  import opened NfeManifestacao
  import opened NfeStore

  function Digit(n: nat): char
    requires n < 10
  {
    (n + '0' as int) as char
  }

  function TwoDigits(n: nat): (s: string)
    requires n < 100
    ensures |s| == 2
  {
    [Digit(n / 10), Digit(n % 10)]
  }

  /** How an RFC 3339 text ends: Z in UTC, else the offset in hours and minutes. */
  function Suffix(zone: int): string
    requires -6000 < zone < 6000
  {
    if zone == 0 then "Z"
    else if zone > 0 then "+" + TwoDigits(zone / 60) + ":" + TwoDigits(zone % 60)
    else "-" + TwoDigits(-zone / 60) + ":" + TwoDigits(-zone % 60)
  }

  /** The order of texts, character by character. */
  predicate TextLess(a: string, b: string) {
    b != "" && (a == "" || a[0] < b[0] || (a[0] == b[0] && TextLess(a[1..], b[1..])))
  }

  /** The local time: the clock of the instant, moved by the minutes of the offset. */
  function LocalSeconds(m: Moment): int {
    (m.at / 60 + m.zone) * 60 + m.at % 60
  }

  /** wall writes local times so that texts of one length sort like the times. */
  ghost predicate Writes(wall: int -> string) {
    forall s, t :: |wall(s)| == |wall(t)| && (TextLess(wall(s), wall(t)) <==> s < t)
  }

  function Text(wall: int -> string, m: Moment): string
    requires -6000 < m.zone < 6000
  {
    wall(LocalSeconds(m)) + Suffix(m.zone)
  }

  lemma {:induction false} NotLessThanItself(a: string)
    ensures !TextLess(a, a)
  {
    if a != "" {
      NotLessThanItself(a[1..]);
    }
  }

  lemma {:induction false} LessByParts(a: string, b: string, x: string, y: string)
    requires |a| == |b|
    ensures TextLess(a + x, b + y) <==> TextLess(a, b) || (a == b && TextLess(x, y))
  {
    if a == "" {
      assert a + x == x && b + y == y;
    } else {
      LessByParts(a[1..], b[1..], x, y);
      assert (a + x)[1..] == a[1..] + x && (b + y)[1..] == b[1..] + y;
      assert a == [a[0]] + a[1..] && b == [b[0]] + b[1..];
    }
  }

  lemma TwoDigitsOrder(m: nat, n: nat)
    requires m < 100 && n < 100
    ensures TextLess(TwoDigits(m), TwoDigits(n)) <==> m < n
    ensures TwoDigits(m) == TwoDigits(n) <==> m == n
  {
    var a, b := TwoDigits(m), TwoDigits(n);
    var x, y := a[1..], b[1..];
    assert x == [Digit(m % 10)] && y == [Digit(n % 10)] && x[1..] == "" && y[1..] == "";
    assert TextLess(x, y) <==> m % 10 < n % 10;
    assert TextLess(a, b) <==> m / 10 < n / 10 || (m / 10 == n / 10 && TextLess(x, y));
  }

  /** Two offsets of one sign sort by their size. */
  lemma OffsetOrder(sign: string, m: nat, n: nat)
    requires |sign| == 1 && m < 6000 && n < 6000
    ensures TextLess(sign + TwoDigits(m / 60) + ":" + TwoDigits(m % 60),
                     sign + TwoDigits(n / 60) + ":" + TwoDigits(n % 60))
       <==> m < n
  {
    hide TwoDigits;
    var a, b := sign + TwoDigits(m / 60), sign + TwoDigits(n / 60);
    TwoDigitsOrder(m / 60, n / 60);
    TwoDigitsOrder(m % 60, n % 60);
    NotLessThanItself(sign);
    NotLessThanItself(":");
    LessByParts(sign, sign, TwoDigits(m / 60), TwoDigits(n / 60));
    assert a[..1] == sign == b[..1] && a[1..] == TwoDigits(m / 60) && b[1..] == TwoDigits(n / 60);
    LessByParts(a + ":", b + ":", TwoDigits(m % 60), TwoDigits(n % 60));
    LessByParts(a, b, ":", ":");
    assert (a + ":")[..|a|] == a && (b + ":")[..|b|] == b;
  }

  lemma SuffixOrder(y: int, z: int)
    requires -6000 < y < 6000 && -6000 < z < 6000
    ensures TextLess(Suffix(y), Suffix(z)) <==> ZoneRank(y) < ZoneRank(z)
  {
    hide TwoDigits;
    if y > 0 && z > 0 {
      OffsetOrder("+", y, z);
    } else if y < 0 && z < 0 {
      OffsetOrder("-", -y, -z);
    } else if y == 0 && z == 0 {
      NotLessThanItself("Z");
    }
  }

  lemma SuffixNames(y: int, z: int)
    requires -6000 < y < 6000 && -6000 < z < 6000
    ensures ZoneRank(y) == ZoneRank(z) <==> y == z
  {
  }

  /** The listing compares moments as their RFC 3339 texts compare. */
  lemma TextBeforeIsTextLess(wall: int -> string, m: Moment, n: Moment)
    requires Writes(wall) && -6000 < m.zone < 6000 && -6000 < n.zone < 6000
    ensures TextBefore(m, n) <==> TextLess(Text(wall, m), Text(wall, n))
    ensures SameText(m, n) <==> Text(wall, m) == Text(wall, n)
  {
    hide Suffix, TextLess, ZoneRank;
    var s, t := LocalSeconds(m), LocalSeconds(n);
    assert WallClock(m) == s && WallClock(n) == t;
    LessByParts(wall(s), wall(t), Suffix(m.zone), Suffix(n.zone));
    SuffixOrder(m.zone, n.zone);
    SuffixOrder(n.zone, m.zone);
    SuffixNames(m.zone, n.zone);
    NotLessThanItself(wall(s));
    NotLessThanItself(Suffix(m.zone));
    var a, b := Text(wall, m), Text(wall, n);
    if a == b {
      assert wall(s) == a[..|wall(s)|] == b[..|wall(t)|] == wall(t);
      assert Suffix(m.zone) == a[|wall(s)|..] == b[|wall(t)|..] == Suffix(n.zone);
    }
  }

  /** A row whose event carries no time is listed by its creation, written in UTC. */
  lemma CreationIsInUtc(wall: int -> string, row: EventRow)
    requires row.event.registeredAt.None? && row.event.eventAt.None?
    ensures Stamp(row).zone == 0 && Text(wall, Stamp(row)) == wall(row.createdAt) + "Z"
  {
  }
}
