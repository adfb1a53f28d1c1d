/**
 * The payout configuration and the routing of one edit from the settings form.
 *
 * The settings are a JavaScript object: a record of top-level multipliers
 * (`player`, `banker`, `smallTiger`, ...), a tie-bonus table keyed by tie point,
 * and two sub-records, `tiger` and `tigerPair`. The edit handler builds a new
 * object with spreads, so the model keeps the object's dynamic shape: a
 * dictionary from property name to an entry that is a number, a sub-record,
 * or the tie-bonus table.
 */
module PayoutTable {
  import opened Wrappers

  datatype Entry =
    | Num(value: real)
    | Group(fields: map<string, real>)
    | Points(bonus: map<int, real>)

  /** The payout settings object, by property name. */
  type Payouts = map<string, Entry>

  /** The one place an edit writes to. */
  datatype Slot =
    | TieBonusSlot(point: int)   // tieBonus[point]
    | TigerSlot(name: string)    // tiger.name
    | TigerPairSlot(name: string)  // tigerPair.name
    | TopSlot(name: string)      // a top-level property

  /** The top-level property that holds a slot. */
  function Holder(s: Slot): string
  {
    match s
    case TieBonusSlot(_) => "tieBonus"
    case TigerSlot(_) => "tiger"
    case TigerPairSlot(_) => "tigerPair"
    case TopSlot(n) => n
  }

  /** The text up to the first '.', which is what `split('.')` puts first. */
  function Segment(s: string): (r: string)
    ensures r <= s && '.' !in r
    ensures |r| < |s| ==> s[|r|] == '.'
  {
    if s == [] || s[0] == '.' then [] else [s[0]] + Segment(s[1..])
  }

  /**
   * Which slot an edit of property `key` goes to, with the optional tie point:
   * the tie-bonus table first, then a `tiger.` sub-field, then a `tigerPair.`
   * sub-field, otherwise the top-level property named by the whole key. The
   * sub-field name is the second `.`-separated part of the key.
   */
  function Route(key: string, bonusKey: Option<int>): (s: Slot)
    ensures s.TieBonusSlot? <==> key == "tieBonus" && bonusKey.Some?
    ensures s.TieBonusSlot? ==> s.point == bonusKey.value
    ensures s.TopSlot? ==> s.name == key
  {
    if key == "tieBonus" && bonusKey.Some? then TieBonusSlot(bonusKey.value)
    else if "tiger." <= key then TigerSlot(Segment(key[6..]))
    else if "tigerPair." <= key then TigerPairSlot(Segment(key[10..]))
    else TopSlot(key)
  }

  /** A sub-record as the spread `{ ...prev[holder] }` sees it: absent or a number spreads to nothing. */
  function GroupIn(p: Payouts, holder: string): map<string, real>
  {
    if holder in p && p[holder].Group? then p[holder].fields else map[]
  }

  /** The tie-bonus table as the spread `{ ...prev[holder] }` sees it. */
  function PointsIn(p: Payouts, holder: string): map<int, real>
  {
    if holder in p && p[holder].Points? then p[holder].bonus else map[]
  }

  /** The value a slot holds, if any. */
  function Read(p: Payouts, s: Slot): Option<real>
  {
    match s
    case TieBonusSlot(k) =>
      if k in PointsIn(p, "tieBonus") then Some(PointsIn(p, "tieBonus")[k]) else None
    case TigerSlot(n) =>
      if n in GroupIn(p, "tiger") then Some(GroupIn(p, "tiger")[n]) else None
    case TigerPairSlot(n) =>
      if n in GroupIn(p, "tigerPair") then Some(GroupIn(p, "tigerPair")[n]) else None
    case TopSlot(n) =>
      if n in p && p[n].Num? then Some(p[n].value) else None
  }

  /**
   * The settings after writing `v` into slot `s`: the slot reads `v`, and every
   * top-level property other than the slot's holder is untouched.
   */
  function Write(p: Payouts, s: Slot, v: real): (r: Payouts)
    ensures Read(r, s) == Some(v)
    ensures Holder(s) in r
    ensures forall k :: k != Holder(s) ==> (k in r <==> k in p)
    ensures forall k :: k in p && k != Holder(s) ==> r[k] == p[k]
  {
    match s
    case TieBonusSlot(k) => p["tieBonus" := Points(PointsIn(p, "tieBonus")[k := v])]
    case TigerSlot(n) => p["tiger" := Group(GroupIn(p, "tiger")[n := v])]
    case TigerPairSlot(n) => p["tigerPair" := Group(GroupIn(p, "tigerPair")[n := v])]
    case TopSlot(n) => p[n := Num(v)]
  }

  /**
   * Two slots are independent when writing one cannot disturb the other: they
   * live under different properties, or are different entries of one table.
   */
  predicate Independent(s: Slot, t: Slot)
  {
    Holder(s) != Holder(t) || (s != t && !s.TopSlot? && !t.TopSlot?)
  }

  /** The precedence of the routing across all four branches. */
  lemma RoutePrecedence(key: string, bonusKey: Option<int>)
    ensures Route(key, bonusKey).TieBonusSlot? <==> key == "tieBonus" && bonusKey.Some?
    ensures Route(key, bonusKey).TigerSlot? <==> "tiger." <= key
    ensures Route(key, bonusKey).TigerPairSlot? <==> "tigerPair." <= key
    ensures Route(key, bonusKey).TopSlot? ==> Route(key, bonusKey).name == key
  {
    if key == "tieBonus" {
      assert key[2] == 'e';
    } else if "tiger." <= key {
      assert key[5] == '.';
    }
  }

  /**
   * A sub-field edit names the text between the key's first and second '.':
   * the key starts with the holder, a '.', and the name, which is followed by
   * the end of the key or another '.'.
   */
  lemma RouteSubFieldName(key: string, bonusKey: Option<int>)
    requires Route(key, bonusKey).TigerSlot? || Route(key, bonusKey).TigerPairSlot?
    ensures var prefix := Holder(Route(key, bonusKey)) + ".";
      var name := Route(key, bonusKey).name;
      prefix + name <= key && '.' !in name &&
      (|key| == |prefix + name| || key[|prefix + name|] == '.')
  {
    var s := Route(key, bonusKey);
    var prefix := Holder(s) + ".";
    var rest := key[|prefix|..];
    assert key == prefix + rest;
    assert s.name == Segment(rest);
  }

  /** Writing a slot and reading an independent one sees the old value. */
  lemma WriteFrame(p: Payouts, s: Slot, t: Slot, v: real)
    requires Independent(s, t)
    ensures Read(Write(p, s, v), t) == Read(p, t)
  {
  }

  /**
   * Every settings object the form can reach: the tie-bonus table is only ever
   * under `tieBonus`, and sub-records only under `tiger` and `tigerPair`.
   */
  ghost predicate WellShaped(p: Payouts)
  {
    forall k :: k in p ==>
      (p[k].Points? ==> k == "tieBonus") && (p[k].Group? ==> k == "tiger" || k == "tigerPair")
  }

  /** The declared `Payouts` shape: a tie-bonus table, two sub-records, the rest numbers. */
  ghost predicate Typed(p: Payouts)
  {
    && "tieBonus" in p && p["tieBonus"].Points?
    && "tiger" in p && p["tiger"].Group?
    && "tigerPair" in p && p["tigerPair"].Group?
    && forall k :: k in p && k != "tieBonus" && k != "tiger" && k != "tigerPair" ==> p[k].Num?
  }

  /** Every routed edit keeps the settings well shaped. */
  lemma RouteKeepsWellShaped(p: Payouts, key: string, bonusKey: Option<int>, v: real)
    requires WellShaped(p)
    ensures WellShaped(Write(p, Route(key, bonusKey), v))
  {
    var s := Route(key, bonusKey);
    RoutePrecedence(key, bonusKey);
    var r := Write(p, s, v);
    forall k | k in r
      ensures (r[k].Points? ==> k == "tieBonus") && (r[k].Group? ==> k == "tiger" || k == "tigerPair")
    {
      if k != Holder(s) {
        assert r[k] == p[k];
      }
    }
  }

  /**
   * An edit keeps the declared shape unless it is a top-level write to the name
   * of the tie-bonus table or of a sub-record, which replaces that whole table
   * by a number (`'tieBonus'` without a tie point, `'tiger'`, `'tigerPair'`).
   */
  lemma TypedKeptUnlessTableReplaced(p: Payouts, s: Slot, v: real)
    requires Typed(p)
    ensures Typed(Write(p, s, v))
        <==> !(s.TopSlot? && (s.name == "tieBonus" || s.name == "tiger" || s.name == "tigerPair"))
  {
    var r := Write(p, s, v);
    if !(s.TopSlot? && (s.name == "tieBonus" || s.name == "tiger" || s.name == "tigerPair")) {
      forall k | k in r && k != "tieBonus" && k != "tiger" && k != "tigerPair"
        ensures r[k].Num?
      {
        if k != Holder(s) {
          assert r[k] == p[k];
        }
      }
    }
  }

  /** A name with no '.' is its own first segment. */
  lemma {:induction false} SegmentOfPlainName(name: string)
    requires '.' !in name
    ensures Segment(name) == name
  {
    if name != [] {
      assert name[0] in name;
      assert '.' !in name[1..] by {
        forall i | 0 <= i < |name[1..]| ensures name[1..][i] != '.' {
          assert name[1..][i] == name[i + 1];
        }
      }
      SegmentOfPlainName(name[1..]);
      assert [name[0]] + name[1..] == name;
    }
  }

  /** The key and tie point the settings form sends to edit a slot. */
  function KeyOf(s: Slot): (string, Option<int>)
  {
    match s
    case TieBonusSlot(k) => ("tieBonus", Some(k))
    case TigerSlot(n) => ("tiger." + n, None)
    case TigerPairSlot(n) => ("tigerPair." + n, None)
    case TopSlot(n) => (n, None)
  }

  /**
   * The slots a form field can name: sub-field names without a '.', and top-level
   * names that do not look like a sub-field key.
   */
  predicate Addressable(s: Slot)
  {
    match s
    case TieBonusSlot(_) => true
    case TigerSlot(n) => '.' !in n
    case TigerPairSlot(n) => '.' !in n
    case TopSlot(n) => !("tiger." <= n) && !("tigerPair." <= n)
  }

  /** Routing the key of an addressable slot finds that slot again. */
  lemma RouteKeyOf(s: Slot)
    requires Addressable(s)
    ensures Route(KeyOf(s).0, KeyOf(s).1) == s
  {
    match s
    case TieBonusSlot(_) =>
    case TigerSlot(n) =>
      var key := "tiger." + n;
      assert key[..6] == "tiger." && key[6..] == n;
      SegmentOfPlainName(n);
      assert key != "tieBonus" by { assert key[2] != "tieBonus"[2]; }
    case TigerPairSlot(n) =>
      var key := "tigerPair." + n;
      assert key[..10] == "tigerPair." && key[10..] == n;
      SegmentOfPlainName(n);
      assert !("tiger." <= key) by { assert key[5] == 'P'; }
      assert key != "tieBonus" by { assert key[2] != "tieBonus"[2]; }
    case TopSlot(n) =>
  }
}
