/** The name from which the id of a change event is derived. */
module EventNames {

  /** strconv.FormatInt(n, 10). */
  function FormatInt(n: int): string {
    if n < 0 then "-" + Digits(-n) else Digits(n)
  }

  function Digits(n: nat): (s: string)
    ensures s != "" && s[0] != '-'
  {
    if n < 10 then [Digit(n)] else Digits(n / 10) + [Digit(n % 10)]
  }

  function Digit(d: nat): (c: char)
    requires d < 10
    ensures '0' <= c <= '9' && c as int - '0' as int == d
  {
    ('0' as int + d) as char
  }

  function EventName(tenant: string, entity: string, version: int): string {
    tenant + "|" + entity + "|" + FormatInt(version)
  }

  /** The name begins with tenant and entity, and ends with the version. */
  lemma NameParts(tenant: string, entity: string, version: int)
    ensures tenant + "|" + entity + "|" <= EventName(tenant, entity, version)
    ensures EventName(tenant, entity, version)[|tenant| + |entity| + 2..] == FormatInt(version)
  {
  }

  // ---------- reading a name back ----------

  function ValueOf(s: string): int {
    if s == "" then 0 else 10 * ValueOf(s[..|s| - 1]) + (s[|s| - 1] as int - '0' as int)
  }

  function ParseInt(s: string): int {
    if s != "" && s[0] == '-' then -ValueOf(s[1..]) else ValueOf(s)
  }

  lemma {:induction false} DigitsRead(n: nat)
    ensures ValueOf(Digits(n)) == n
  {
    var s := Digits(n);
    var last := |s| - 1;
    if n >= 10 {
      DigitsRead(n / 10);
      assert s[..last] == Digits(n / 10);
    } else {
      assert s[..last] == "";
    }
  }

  /** Printed numbers read back, so different numbers are printed differently. */
  lemma FormatIntRead(n: int)
    ensures ParseInt(FormatInt(n)) == n
  {
    if n < 0 {
      assert FormatInt(n)[1..] == Digits(-n);
      DigitsRead(-n);
    } else {
      DigitsRead(n);
    }
  }

  /** The text before the first bar. */
  function BeforeBar(s: string): string {
    if s == "" || s[0] == '|' then "" else [s[0]] + BeforeBar(s[1..])
  }

  lemma {:induction false} BeforeBarIs(a: string, rest: string)
    requires '|' !in a
    ensures BeforeBar(a + "|" + rest) == a && (a + "|" + rest)[|a| + 1..] == rest
  {
    var s := a + "|" + rest;
    if a != "" {
      assert a[0] in a && s[1..] == a[1..] + "|" + rest;
      BeforeBarIs(a[1..], rest);
    }
  }

  /** Two versions have the same event name only if they are the same version of the same entity of
      the same tenant; ids contain no bar. */
  lemma EventNamesDiffer(tenant: string, entity: string, version: int, tenant': string, entity': string, version': int)
    requires '|' !in tenant && '|' !in entity && '|' !in tenant' && '|' !in entity'
    ensures EventName(tenant, entity, version) == EventName(tenant', entity', version') <==>
      (tenant, entity, version) == (tenant', entity', version')
  {
    var v, v' := FormatInt(version), FormatInt(version');
    assert EventName(tenant, entity, version) == tenant + "|" + (entity + "|" + v);
    assert EventName(tenant', entity', version') == tenant' + "|" + (entity' + "|" + v');
    BeforeBarIs(tenant, entity + "|" + v);
    BeforeBarIs(tenant', entity' + "|" + v');
    BeforeBarIs(entity, v);
    BeforeBarIs(entity', v');
    FormatIntRead(version);
    FormatIntRead(version');
  }
}
