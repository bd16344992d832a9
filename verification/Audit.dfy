/**
 The hash-chained audit log: appending under the lock, restarting, verifying, and what a
 verifying table proves. The hash function is only assumed to yield 64 hexadecimal digits.
 */
module Audit {

  type Hash = string -> string

  /** The stored fields as they are written into the hash input, and the stored hash. */
  datatype Entry = Entry(timestamp: string, action: string, actor: string, target: string, details: string,
                         chainHash: string)

  const GENESIS := "genesis"

  /** The text of a row in the order in which it is hashed, with nothing between the fields. */
  function Content(e: Entry): string {
    e.timestamp + e.action + e.actor + e.target + e.details
  }

  function LastHash(rows: seq<Entry>): string {
    if rows == [] then GENESIS else rows[|rows| - 1].chainHash
  }

  /** What row i's stored hash has to be the hash of. */
  function ChainInput(rows: seq<Entry>, i: nat): string
    requires i < |rows|
  {
    LastHash(rows[..i]) + Content(rows[i])
  }

  predicate RowGood(h: Hash, rows: seq<Entry>, i: nat)
    requires i < |rows|
  {
    h(ChainInput(rows, i)) == rows[i].chainHash
  }

  ghost predicate Intact(h: Hash, rows: seq<Entry>) {
    forall i | 0 <= i < |rows| :: RowGood(h, rows, i)
  }

  function Linked(h: Hash, previous: string, e: Entry): Entry {
    e.(chainHash := h(previous + Content(e)))
  }

  /** The trail object: its table, and the hash it keeps in memory for the next append. */
  class AuditTrail {
    const h: Hash
    var rows: seq<Entry>
    var prevHash: string

    /** The cached hash is current. Whether the table was tampered with is another matter. */
    ghost predicate Valid()
      reads this
    {
      prevHash == LastHash(rows)
    }

    ghost function Value(): Trail
      reads this
    {
      Trail(rows, prevHash)
    }

    /** Opening a database, new or left by an earlier process, whatever is in it. */
    constructor (h: Hash, existing: seq<Entry>)
      ensures this.h == h && Valid() && rows == existing
      ensures forall cached :: Value() == Apply(h, Trail(existing, cached), Restart)
    {
      this.h := h;
      rows := existing;
      prevHash := LastHash(existing);
    }

    method Log(timestamp: string, action: string, actor: string, target: string, details: string)
      requires Valid()
      modifies this
      ensures Valid()
      ensures Value() == Apply(h, old(Value()), Append(Entry(timestamp, action, actor, target, details, "")))
      ensures |rows| == |old(rows)| + 1 && RowGood(h, rows, |old(rows)|)
      ensures forall i | 0 <= i < |old(rows)| ::
                rows[i] == old(rows)[i] && (RowGood(h, rows, i) <==> RowGood(h, old(rows), i))
    {
      var chainInput := prevHash + timestamp + action + actor + target + details;
      var chainHash := h(chainInput);
      var e := Entry(timestamp, action, actor, target, details, chainHash);
      assert chainInput == prevHash + Content(e);
      AppendKeepsVerdicts(h, rows, e);
      rows := rows + [e];
      prevHash := chainHash;
    }

    /** True with the number of rows when the table is intact; else false with the first bad row. */
    method VerifyIntegrity() returns (ok: bool, index: nat)
      ensures ok <==> Intact(h, rows)
      ensures ok ==> index == |rows|
      ensures !ok ==> index < |rows| && !RowGood(h, rows, index) && forall k | 0 <= k < index :: RowGood(h, rows, k)
    {
      var prev := GENESIS;
      for i := 0 to |rows|
        invariant prev == LastHash(rows[..i])
        invariant forall k | 0 <= k < i :: RowGood(h, rows, k)
      {
        var e := rows[i];
        var expected := h(prev + e.timestamp + e.action + e.actor + e.target + e.details);
        assert prev + e.timestamp + e.action + e.actor + e.target + e.details == ChainInput(rows, i);
        if expected != e.chainHash {
          assert !RowGood(h, rows, i);
          return false, i;
        }
        prev := e.chainHash;
        assert rows[..i + 1][i] == e;
      }
      return true, |rows|;
    }
  }

  /** A linked row is good itself and changes the verdict on no other, in a tampered table too. */
  lemma AppendKeepsVerdicts(h: Hash, rows: seq<Entry>, e: Entry)
    requires e.chainHash == h(LastHash(rows) + Content(e))
    ensures RowGood(h, rows + [e], |rows|)
    ensures forall i | 0 <= i < |rows| :: RowGood(h, rows + [e], i) <==> RowGood(h, rows, i)
  {
    var longer := rows + [e];
    assert longer[..|rows|] == rows;
    forall i | 0 <= i < |rows|
      ensures RowGood(h, longer, i) <==> RowGood(h, rows, i)
    {
      assert longer[..i] == rows[..i];
    }
  }

  // ---------- Interleavings of appends and restarts ----------

  datatype Operation = Append(entry: Entry) | Restart

  datatype Trail = Trail(rows: seq<Entry>, prevHash: string)

  function Apply(h: Hash, t: Trail, op: Operation): Trail {
    match op
    case Append(e) => var linked := Linked(h, t.prevHash, e); Trail(t.rows + [linked], linked.chainHash)
    case Restart => Trail(t.rows, LastHash(t.rows))
  }

  /** Any sequence of operations on a table that was there before. */
  function ApplyFrom(h: Hash, existing: seq<Entry>, ops: seq<Operation>): Trail {
    if ops == [] then Trail(existing, LastHash(existing))
    else Apply(h, ApplyFrom(h, existing, ops[..|ops| - 1]), ops[|ops| - 1])
  }

  function ApplyAll(h: Hash, ops: seq<Operation>): Trail {
    ApplyFrom(h, [], ops)
  }

  function Appends(ops: seq<Operation>): nat {
    if ops == [] then 0 else Appends(ops[..|ops| - 1]) + if ops[|ops| - 1].Append? then 1 else 0
  }

  /** The rows that were there before keep their text and their verdict, and every row added since is good. */
  ghost predicate Extends(h: Hash, existing: seq<Entry>, t: Trail, added: nat) {
    && t.prevHash == LastHash(t.rows)
    && |t.rows| == |existing| + added
    && (forall i | 0 <= i < |existing| ::
          t.rows[i] == existing[i] && (RowGood(h, t.rows, i) <==> RowGood(h, existing, i)))
    && (forall i | |existing| <= i < |t.rows| :: RowGood(h, t.rows, i))
  }

  /**
   The lock makes every interleaving a sequence. Whatever it is, and whatever table it starts from,
   nothing is lost and the first bad row stays where it was.
   */
  lemma {:induction false} EveryInterleavingExtends(h: Hash, existing: seq<Entry>, ops: seq<Operation>)
    ensures Extends(h, existing, ApplyFrom(h, existing, ops), Appends(ops))
  {
    if ops != [] {
      var front := ops[..|ops| - 1];
      EveryInterleavingExtends(h, existing, front);
      ApplyingExtends(h, existing, ApplyFrom(h, existing, front), Appends(front), ops[|ops| - 1]);
    }
  }

  lemma ApplyingExtends(h: Hash, existing: seq<Entry>, t: Trail, added: nat, op: Operation)
    requires Extends(h, existing, t, added)
    ensures Extends(h, existing, Apply(h, t, op), added + if op.Append? then 1 else 0)
  {
    if op.Append? {
      AppendingExtends(h, existing, t, added, Linked(h, t.prevHash, op.entry));
    }
  }

  lemma AppendingExtends(h: Hash, existing: seq<Entry>, t: Trail, added: nat, e: Entry)
    requires Extends(h, existing, t, added) && e.chainHash == h(LastHash(t.rows) + Content(e))
    ensures Extends(h, existing, Trail(t.rows + [e], e.chainHash), added + 1)
  {
    var rows, longer := t.rows, t.rows + [e];
    AppendKeepsVerdicts(h, rows, e);
    assert LastHash(longer) == e.chainHash;
    forall i | 0 <= i < |existing|
      ensures longer[i] == existing[i] && (RowGood(h, longer, i) <==> RowGood(h, existing, i))
    {
      assert longer[i] == rows[i];
      assert RowGood(h, longer, i) <==> RowGood(h, rows, i);
    }
    forall i | |existing| <= i < |longer|
      ensures RowGood(h, longer, i)
    {
      if i < |rows| {
        assert RowGood(h, rows, i);
      }
    }
  }

  /** From an empty table, every interleaving gives one that verifies. */
  lemma EveryInterleavingVerifies(h: Hash, ops: seq<Operation>)
    ensures var t := ApplyAll(h, ops);
      Intact(h, t.rows) && t.prevHash == LastHash(t.rows) && |t.rows| == Appends(ops)
  {
    EveryInterleavingExtends(h, [], ops);
  }

  // ---------- What the last hash fixes ----------

  predicate HexDigit(c: char) {
    '0' <= c <= '9' || 'a' <= c <= 'f'
  }

  predicate HexHash(s: string) {
    |s| == 64 && HexDigit(s[0])
  }

  ghost predicate HashesToHex(h: Hash) {
    forall s: string :: HexHash(h(s))
  }

  /** Two different inputs, both hashed in these tables, with the same hash. */
  ghost predicate Collision(h: Hash, a: seq<Entry>, i: nat, b: seq<Entry>, j: nat) {
    i < |a| && j < |b| && ChainInput(a, i) != ChainInput(b, j) && h(ChainInput(a, i)) == h(ChainInput(b, j))
  }

  lemma SplitAfterHash(p: string, q: string, c: string, d: string)
    requires p + c == q + d && |p| == |q|
    ensures p == q && c == d
  {
    assert p == (p + c)[..|p|] && q == (q + d)[..|q|];
    assert c == (p + c)[|p|..] && d == (q + d)[|q|..];
  }

  /** A row's input tells whether it is the first one, because no hash begins like 'genesis'. */
  lemma SameInputSameLink(p: string, q: string, c: string, d: string)
    requires p == GENESIS || HexHash(p)
    requires q == GENESIS || HexHash(q)
    requires p + c == q + d
    ensures p == q && c == d
  {
    assert (p + c)[0] == p[0] && (q + d)[0] == q[0];
    SplitAfterHash(p, q, c, d);
  }

  lemma LastHashShape(h: Hash, rows: seq<Entry>)
    requires HashesToHex(h) && Intact(h, rows)
    ensures if rows == [] then LastHash(rows) == GENESIS else HexHash(LastHash(rows))
  {
    if rows != [] {
      assert RowGood(h, rows, |rows| - 1);
    }
  }

  lemma DropLastIntact(h: Hash, rows: seq<Entry>)
    requires Intact(h, rows) && rows != []
    ensures Intact(h, rows[..|rows| - 1])
  {
    var front := rows[..|rows| - 1];
    forall i | 0 <= i < |front|
      ensures RowGood(h, front, i)
    {
      assert front[..i] == rows[..i];
      assert RowGood(h, rows, i);
    }
  }

  /**
   The last hash fixes the log: two verifying tables with the same one have equally many rows with
   equal contents and equal hashes, or the two tables exhibit a collision of the hash function.
   */
  lemma {:induction false} LastHashFixesLog(h: Hash, a: seq<Entry>, b: seq<Entry>)
    returns (i: nat, j: nat)
    requires HashesToHex(h) && Intact(h, a) && Intact(h, b)
    requires LastHash(a) == LastHash(b)
    ensures Collision(h, a, i, b, j)
         || (|a| == |b| && forall k | 0 <= k < |a| ::
               Content(a[k]) == Content(b[k]) && a[k].chainHash == b[k].chainHash)
  {
    i, j := 0, 0;
    LastHashShape(h, a);
    LastHashShape(h, b);
    if a != [] && b != [] {
      var m, n := |a| - 1, |b| - 1;
      assert RowGood(h, a, m) && RowGood(h, b, n);
      if ChainInput(a, m) != ChainInput(b, n) {
        return m, n;
      }
      DropLastIntact(h, a);
      DropLastIntact(h, b);
      LastHashShape(h, a[..m]);
      LastHashShape(h, b[..n]);
      SameInputSameLink(LastHash(a[..m]), LastHash(b[..n]), Content(a[m]), Content(b[n]));
      i, j := LastHashFixesLog(h, a[..m], b[..n]);
      if Collision(h, a[..m], i, b[..n], j) {
        assert a[..m][..i] == a[..i] && b[..n][..j] == b[..j];
      } else {
        forall k | 0 <= k < |a|
          ensures Content(a[k]) == Content(b[k]) && a[k].chainHash == b[k].chainHash
        {
          if k < m {
            assert a[..m][k] == a[k] && b[..n][k] == b[k];
          }
        }
      }
    }
  }

  /**
   Altering the contents of one stored row of an intact table is reported at exactly that row,
   unless the altered row exhibits a collision with the original.
   */
  lemma AlterationIsLocated(h: Hash, rows: seq<Entry>, k: nat, altered: Entry)
    requires Intact(h, rows) && k < |rows|
    requires altered.chainHash == rows[k].chainHash && Content(altered) != Content(rows[k])
    ensures var changed := rows[k := altered];
      Collision(h, rows, k, changed, k)
      || (!RowGood(h, changed, k) && forall i | 0 <= i < |rows| && i != k :: RowGood(h, changed, i))
  {
    var changed := rows[k := altered];
    assert changed[..k] == rows[..k];
    assert RowGood(h, rows, k);
    if ChainInput(changed, k) == ChainInput(rows, k) {
      SplitAfterHash(LastHash(rows[..k]), LastHash(rows[..k]), Content(altered), Content(rows[k]));
    }
    forall i | 0 <= i < |rows| && i != k
      ensures RowGood(h, changed, i)
    {
      assert RowGood(h, rows, i);
      assert LastHash(changed[..i]) == LastHash(rows[..i]) by {
        if i > 0 {
          assert changed[..i][i - 1] == changed[i - 1] && rows[..i][i - 1] == rows[i - 1];
        }
      }
    }
  }

  // ---------- Every field is covered ----------

  /** The two rows differ in exactly one of the five hashed fields. */
  ghost predicate OneFieldDiffers(a: Entry, b: Entry) {
    || (b == a.(timestamp := b.timestamp) && a.timestamp != b.timestamp)
    || (b == a.(action := b.action) && a.action != b.action)
    || (b == a.(actor := b.actor) && a.actor != b.actor)
    || (b == a.(target := b.target) && a.target != b.target)
    || (b == a.(details := b.details) && a.details != b.details)
  }

  lemma MiddleTells(before: string, x: string, y: string, after: string)
    ensures before + x + after == before + y + after ==> x == y
  {
    if before + x + after == before + y + after {
      assert |before + x + after| == |before| + |x| + |after|;
      assert |before + y + after| == |before| + |y| + |after|;
      assert x == (before + x + after)[|before|..|before| + |x|];
      assert y == (before + y + after)[|before|..|before| + |y|];
    }
  }

  lemma FieldsSplit(e: Entry)
    ensures Content(e) == "" + e.timestamp + (e.action + e.actor + e.target + e.details)
    ensures Content(e) == e.timestamp + e.action + (e.actor + e.target + e.details)
    ensures Content(e) == (e.timestamp + e.action) + e.actor + (e.target + e.details)
    ensures Content(e) == (e.timestamp + e.action + e.actor) + e.target + e.details
    ensures Content(e) == (e.timestamp + e.action + e.actor + e.target) + e.details + ""
  {
  }

  lemma OneFieldChangesContent(a: Entry, b: Entry)
    requires OneFieldDiffers(a, b)
    ensures Content(a) != Content(b)
  {
    FieldsSplit(a);
    FieldsSplit(b);
    if a.timestamp != b.timestamp {
      MiddleTells("", a.timestamp, b.timestamp, a.action + a.actor + a.target + a.details);
    } else if a.action != b.action {
      MiddleTells(a.timestamp, a.action, b.action, a.actor + a.target + a.details);
    } else if a.actor != b.actor {
      MiddleTells(a.timestamp + a.action, a.actor, b.actor, a.target + a.details);
    } else if a.target != b.target {
      MiddleTells(a.timestamp + a.action + a.actor, a.target, b.target, a.details);
    } else {
      MiddleTells(a.timestamp + a.action + a.actor + a.target, a.details, b.details, "");
    }
  }

  /**
   Altering any single hashed field of a stored row of an intact table is reported at exactly that row,
   unless the alteration exhibits a collision.
   */
  lemma FieldAlterationIsLocated(h: Hash, rows: seq<Entry>, k: nat, altered: Entry)
    requires Intact(h, rows) && k < |rows| && OneFieldDiffers(rows[k], altered)
    ensures var changed := rows[k := altered];
      Collision(h, rows, k, changed, k)
      || (!RowGood(h, changed, k) && forall i | 0 <= i < |rows| && i != k :: RowGood(h, changed, i))
  {
    OneFieldChangesContent(rows[k], altered);
    AlterationIsLocated(h, rows, k, altered);
  }

  /** Altering a stored hash is found at its own row. */
  lemma HashAlterationIsFound(h: Hash, rows: seq<Entry>, k: nat, altered: Entry)
    requires Intact(h, rows) && k < |rows|
    requires altered == rows[k].(chainHash := altered.chainHash) && altered.chainHash != rows[k].chainHash
    ensures var changed := rows[k := altered];
      !RowGood(h, changed, k) && forall i | 0 <= i < k :: RowGood(h, changed, i)
  {
    var changed := rows[k := altered];
    assert RowGood(h, rows, k) && changed[..k] == rows[..k];
    forall i | 0 <= i < k
      ensures RowGood(h, changed, i)
    {
      assert RowGood(h, rows, i) && changed[..i] == rows[..i];
    }
  }
}
