/**
 How a mutation is named: capability, connection and idempotency key joined by
 NUL bytes, with `terminal.attach` alone scoped to its connection.  Distinct
 mutations get distinct names because validated parts hold no NUL.
 */
module MutationIdentity {
  import opened Base
  import opened MutationLedger

  const ATTACH: string := "terminal.attach"

  /** What a validated command supplies. */
  datatype Meta = Meta(capability: string, key: string, commandID: string, digest: string)

  /** Capability names are dotted tokens and idempotency keys are text without NUL, carriage return or line feed. */
  predicate ValidMeta(meta: Meta) {
    NUL !in meta.capability && NUL !in meta.key
  }

  predicate Attaches(meta: Meta) {
    meta.capability == ATTACH
  }

  function Digit(d: nat): char
    requires d < 10
  {
    ('0' as int + d) as char
  }

  function Decimal(n: nat): (s: string) {
    if n < 10 then [Digit(n)] else Decimal(n / 10) + [Digit(n % 10)]
  }

  /** The n-th connection a server opens, counting from 0; the counter is incremented before it is printed. */
  function ConnectionName(n: nat): string {
    "connection-" + Decimal(n + 1)
  }

  function RecordIDs(connection: nat, meta: Meta): Identity {
    if Attaches(meta) then
      Identity(meta.capability + [NUL] + ConnectionName(connection) + [NUL] + meta.key, meta.commandID,
            ConnectionName(connection))
    else
      Identity(meta.capability + [NUL] + meta.key, meta.commandID, "")
  }

  lemma {:induction false} DecimalInjective(m: nat, n: nat)
    requires Decimal(m) == Decimal(n)
    ensures m == n
  {
    DecimalNonEmpty(m / 10);
    DecimalNonEmpty(n / 10);
    var s, t := Decimal(m), Decimal(n);
    assert s[|s| - 1] == Digit(m % 10) && t[|t| - 1] == Digit(n % 10);
    assert s[..|s| - 1] == t[..|t| - 1];
    assert m >= 10 ==> s[..|s| - 1] == Decimal(m / 10);
    assert n >= 10 ==> t[..|t| - 1] == Decimal(n / 10);
    if m >= 10 && n >= 10 { DecimalInjective(m / 10, n / 10); }
  }

  lemma {:induction false} DecimalNonEmpty(n: nat)
    ensures |Decimal(n)| > 0 && NUL !in Decimal(n)
  {
    if n >= 10 { DecimalNonEmpty(n / 10); }
  }

  lemma NameInjective(m: nat, n: nat)
    ensures ConnectionName(m) == ConnectionName(n) <==> m == n
    ensures NUL !in ConnectionName(m) && ConnectionName(m) != ""
  {
    DecimalNonEmpty(m + 1);
    if ConnectionName(m) == ConnectionName(n) {
      assert ConnectionName(m)[11..] == Decimal(m + 1) && ConnectionName(n)[11..] == Decimal(n + 1);
      DecimalInjective(m + 1, n + 1);
    }
  }

  /** Two mutations share a name exactly when they agree on capability and key and, if they attach, on the
      connection. */
  lemma NamesAreExact(c: nat, meta: Meta, d: nat, other: Meta)
    requires ValidMeta(meta) && ValidMeta(other)
    ensures RecordIDs(c, meta).idempotencyID == RecordIDs(d, other).idempotencyID
       <==> meta.capability == other.capability && meta.key == other.key && (Attaches(meta) ==> c == d)
    ensures RecordIDs(c, meta).connectionID == ConnectionName(d) <==> Attaches(meta) && c == d
  {
    hide ConnectionName;
    NameInjective(c, d);
    NameInjective(d, c);
    var one, two := RecordIDs(c, meta).idempotencyID, RecordIDs(d, other).idempotencyID;
    var tail := if Attaches(meta) then ConnectionName(c) + [NUL] + meta.key else meta.key;
    var tail' := if Attaches(other) then ConnectionName(d) + [NUL] + other.key else other.key;
    assert one == meta.capability + [NUL] + tail && two == other.capability + [NUL] + tail';
    if one == two {
      JoinInjective(meta.capability, tail, other.capability, tail');
      if Attaches(meta) { JoinInjective(ConnectionName(c), meta.key, ConnectionName(d), other.key); }
    }
  }
}
