// R2Service.buildKey: tenant-namespaced object keys, and how to read them back.
module ObjectKeys {
  import opened Wrappers
  import opened Tables
  import opened Decimal

  predicate IsSafe(c: char) {
    'a' <= c <= 'z' || 'A' <= c <= 'Z' || '0' <= c <= '9' || c == '.' || c == '-' || c == '_'
  }

  /** One character's replacement: JavaScript sees a character past U+FFFF as two units. */
  function Replaced(c: char): string {
    if IsSafe(c) then [c] else if c >= '\U{10000}' then "__" else "_"
  }

  /** filename.replace(/[^a-zA-Z0-9.\-_]/g, '_') */
  function Sanitize(filename: string): string {
    if filename == "" then "" else Replaced(filename[0]) + Sanitize(filename[1..])
  }

  /** The length that JavaScript reports. */
  function Utf16Length(s: string): nat {
    if s == "" then 0 else (if s[0] >= '\U{10000}' then 2 else 1) + Utf16Length(s[1..])
  }

  function BuildKey(org: OrgId, filename: string, now: nat): string {
    "org/" + org.uuid + "/" + Digits(now / 1000) + "-" + Sanitize(filename)
  }

  /** Position of the first `c` in s, or |s|. */
  function IndexOf(s: string, c: char): (i: nat)
    ensures i <= |s|
  {
    if s == "" || s[0] == c then 0 else 1 + IndexOf(s[1..], c)
  }

  datatype KeyParts = KeyParts(uuid: string, stamp: string, name: string)

  /** Split "org/<uuid>/<stamp>-<name>" at its second slash and the first dash after it. */
  function ParseKey(key: string): Option<KeyParts> {
    if !("org/" <= key) then None
    else
      var rest := key[4..];
      var slash := IndexOf(rest, '/');
      if slash == |rest| then None
      else
        var tail := rest[slash + 1..];
        var dash := IndexOf(tail, '-');
        if dash == |tail| then None
        else Some(KeyParts(rest[..slash], tail[..dash], tail[dash + 1..]))
  }

  lemma {:induction false} IndexAfter(a: string, c: char, b: string)
    requires c !in a
    ensures IndexOf(a + [c] + b, c) == |a|
  {
    var s := a + [c] + b;
    if a != "" {
      assert s[0] == a[0];
      IndexAfter(a[1..], c, b);
      assert s[1..] == a[1..] + [c] + b;
    }
  }

  lemma PartsDecode(uuid: string, stamp: string, name: string)
    requires '/' !in uuid && '-' !in stamp
    ensures ParseKey("org/" + (uuid + ['/'] + (stamp + ['-'] + name))) == Some(KeyParts(uuid, stamp, name))
  {
    hide IndexOf;
    var tail := stamp + ['-'] + name;
    var rest := uuid + ['/'] + tail;
    var key := "org/" + rest;
    assert "org/" <= key && key[4..] == rest;
    IndexAfter(uuid, '/', tail);
    assert rest[..|uuid|] == uuid && rest[|uuid| + 1..] == tail;
    IndexAfter(stamp, '-', name);
    assert tail[..|stamp|] == stamp && tail[|stamp| + 1..] == name;
  }

  /** Every built key parses back to its organization, stamp and sanitised name. */
  lemma KeyDecodes(org: OrgId, filename: string, now: nat)
    requires '/' !in org.uuid
    ensures ParseKey(BuildKey(org, filename, now))
            == Some(KeyParts(org.uuid, Digits(now / 1000), Sanitize(filename)))
  {
    hide ParseKey, Digits, Sanitize;
    var stamp, name := Digits(now / 1000), Sanitize(filename);
    PartsDecode(org.uuid, stamp, name);
    assert BuildKey(org, filename, now) == "org/" + (org.uuid + ['/'] + (stamp + ['-'] + name));
  }

  /** So the unique index on keys never couples two organizations. */
  lemma KeysNeverMeet(a: OrgId, f: string, s: nat, b: OrgId, g: string, t: nat)
    requires '/' !in a.uuid && '/' !in b.uuid
    ensures BuildKey(a, f, s) == BuildKey(b, g, t) ==>
              a == b && s / 1000 == t / 1000 && Sanitize(f) == Sanitize(g)
  {
    KeyDecodes(a, f, s);
    KeyDecodes(b, g, t);
    ParseDigits(s / 1000);
    ParseDigits(t / 1000);
  }

  lemma {:induction false} SanitizeFixesSafe(s: string)
    requires forall c :: c in s ==> IsSafe(c)
    ensures Sanitize(s) == s
  {
    if s != "" {
      SanitizeFixesSafe(s[1..]);
      assert s == [s[0]] + s[1..];
    }
  }

  lemma {:induction false} SanitizeIsSafe(s: string)
    ensures forall c :: c in Sanitize(s) ==> IsSafe(c) && (c in s || c == '_')
    ensures |Sanitize(s)| == Utf16Length(s)
  {
    if s != "" {
      SanitizeIsSafe(s[1..]);
      forall c | c in Sanitize(s) ensures IsSafe(c) && (c in s || c == '_') {
        assert c in Replaced(s[0]) || c in Sanitize(s[1..]);
      }
    }
  }

  /** The ASCII codes of digits, letters, dash, dot and underscore. */
  predicate IsKept(code: int) {
    48 <= code <= 57 || 65 <= code <= 90 || 97 <= code <= 122 || code == 45 || code == 46 || code == 95
  }

  /** Sanitising goes character by character: a kept one stays, any other becomes one underscore per UTF-16 unit. */
  lemma {:induction false} SanitizeIsPerCharacter(s: string, t: string, c: char)
    ensures Sanitize(s + t) == Sanitize(s) + Sanitize(t)
    ensures Sanitize([c]) == if IsKept(c as int) then [c] else if c as int < 0x10000 then "_" else "__"
  {
    assert Sanitize([c]) == Replaced(c) + Sanitize([c][1..]) && [c][1..] == "";
    if s == "" {
      assert s + t == t;
    } else {
      SanitizeIsPerCharacter(s[1..], t, c);
      assert (s + t)[1..] == s[1..] + t;
    }
  }

  /** Sanitising puts underscores for whatever is not safe, keeps the length, and does nothing the second time. */
  lemma SanitizeIsIdempotent(filename: string)
    ensures Sanitize(Sanitize(filename)) == Sanitize(filename)
    ensures forall c :: c in Sanitize(filename) ==> IsSafe(c) && (c in filename || c == '_')
    ensures (forall c :: c in filename ==> IsSafe(c)) <==> Sanitize(filename) == filename
    ensures |Sanitize(filename)| == Utf16Length(filename)
  {
    hide Sanitize;
    SanitizeIsSafe(filename);
    SanitizeFixesSafe(Sanitize(filename));
    if forall c :: c in filename ==> IsSafe(c) { SanitizeFixesSafe(filename); }
  }
}
