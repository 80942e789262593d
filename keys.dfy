/**
 * Lock-key derivation: `get_key` turns a subject and a key-schema version into
 * the namespaced key `distlock/key/v{version}-{class name}-{identifier}`.
 */
module Keys {
  import opened Wrappers
  import Decimal

  /** The namespace every derived key lives under. */
  const GLOBAL_PREFIX: string := "distlock/key"

  /** The text every derived key starts with, up to the version number. */
  const KeyHead: string := GLOBAL_PREFIX + "/v"

  /**
   * What `get_key` reads from the object it is handed: the name of its class,
   * its `xid` attribute when it has one (already in its `str` form), and its
   * `repr`.
   */
  datatype Subject = Subject(className: string, xid: Option<string>, repr: string)

  /** The identifier segment: the subject's `xid`, or its `repr` without one. */
  function Identifier(obj: Subject): string {
    match obj.xid
    case Some(x) => x
    case None => obj.repr
  }

  /** The class name and the identifier, joined by `-`. */
  function Name(obj: Subject): string {
    obj.className + "-" + Identifier(obj)
  }

  /** What follows the version number in a key. */
  function KeyTail(obj: Subject): string {
    "-" + Name(obj)
  }

  /** The key `get_key(obj, version)` returns; `version` defaults to 1. */
  function GetKey(obj: Subject, version: int := 1): string {
    KeyHead + Decimal.FromInt(version) + KeyTail(obj)
  }

  /**
   * Every key lives under the global prefix and its `/v` marker, and ends with
   * the subject's class name and identifier.
   */
  lemma GetKeyShape(obj: Subject, version: int)
    ensures var key := GetKey(obj, version);
      |key| > |KeyHead| && key[..|KeyHead|] == KeyHead
      && key[..|GLOBAL_PREFIX|] == GLOBAL_PREFIX
      && |key| > |KeyTail(obj)| && key[|key| - |KeyTail(obj)|..] == KeyTail(obj)
  {
    var key := GetKey(obj, version);
    assert key == KeyHead + (Decimal.FromInt(version) + KeyTail(obj));
    assert key[..|GLOBAL_PREFIX|] == KeyHead[..|GLOBAL_PREFIX|];
  }

  /** The two parts a key can be split back into. */
  datatype KeyParts = KeyParts(version: int, name: string)

  /**
   * Splits a key into its version number and what follows the `-` after it
   * (the class name and the identifier, joined by `-`); None for text that is
   * not shaped like a derived key.
   */
  function ParseKey(key: string): Option<KeyParts> {
    if |key| < |KeyHead| || key[..|KeyHead|] != KeyHead then None
    else
      match Decimal.ParseIntPrefix(key[|KeyHead|..])
      case None => None
      case Some((v, rest)) =>
        if |rest| > 0 && rest[0] == '-' then Some(KeyParts(v, rest[1..])) else None
  }

  /** Parsing a key that starts with the head reads on from the version number. */
  lemma ParseKeyAfterHead(rest: string, v: int, tail: string)
    requires Decimal.ParseIntPrefix(rest) == Some((v, tail))
    requires |tail| > 0 && tail[0] == '-'
    ensures ParseKey(KeyHead + rest) == Some(KeyParts(v, tail[1..]))
  {
    assert (KeyHead + rest)[..|KeyHead|] == KeyHead;
    assert (KeyHead + rest)[|KeyHead|..] == rest;
  }

  /** Every derived key splits back into the version and the subject's segments. */
  lemma ParseGetKey(obj: Subject, version: int)
    ensures ParseKey(GetKey(obj, version)) == Some(KeyParts(version, Name(obj)))
  {
    var rest := Decimal.FromInt(version) + KeyTail(obj);
    assert GetKey(obj, version) == KeyHead + rest;
    Decimal.ParseIntPrefixFromInt(version, KeyTail(obj));
    ParseKeyAfterHead(rest, version, KeyTail(obj));
    assert KeyTail(obj)[1..] == Name(obj);
  }

  /**
   * Two subjects with the same class-name and identifier segments get the same
   * key at the same version, and a key determines its version.
   */
  lemma GetKeySameExactly(a: Subject, va: int, b: Subject, vb: int)
    ensures GetKey(a, va) == GetKey(b, vb)
        <==> va == vb && Name(a) == Name(b)
  {
    var na, nb := Name(a), Name(b);
    if GetKey(a, va) == GetKey(b, vb) {
      ParseGetKey(a, va);
      ParseGetKey(b, vb);
      assert KeyParts(va, na) == KeyParts(vb, nb);
    }
    if va == vb && na == nb {
      assert KeyTail(a) == "-" + na && KeyTail(b) == "-" + nb;
    }
  }

  /** Changing the version of one subject's key always changes the key. */
  lemma GetKeyVersionMatters(obj: Subject, v1: int, v2: int)
    ensures GetKey(obj, v1) == GetKey(obj, v2) <==> v1 == v2
  {
    GetKeySameExactly(obj, v1, obj, v2);
  }

  /**
   * The identifier comes from `xid` whenever the subject has one, whatever its
   * `repr`, and from `repr` otherwise.
   */
  lemma IdentifierResolution(obj: Subject, version: int)
    ensures obj.xid.Some? ==> GetKey(obj, version) == GetKey(obj.(repr := ""), version)
    ensures obj.xid.None? ==> GetKey(obj, version) == GetKey(obj.(xid := Some(obj.repr)), version)
    ensures ParseKey(GetKey(obj, version))
         == Some(KeyParts(version, obj.className + "-" + (if obj.xid.Some? then obj.xid.value else obj.repr)))
  {
    ParseGetKey(obj, version);
  }

  /**
   * The segments are joined by `-` without escaping, so a class name or an
   * identifier that itself contains `-` can share its key with another subject.
   */
  lemma DashesCollide()
    ensures GetKey(Subject("a-b", Some("c"), "")) == GetKey(Subject("a", Some("b-c"), ""))
  {
  }

  /** A key at a one-digit version, spelled out from its digit and its tail. */
  lemma GetKeyAtDigit(obj: Subject, d: nat, digit: char, tail: string)
    requires d < 10 && Decimal.DigitChar(d) == digit && KeyTail(obj) == tail
    ensures GetKey(obj, d) == "distlock/key/v" + [digit] + tail
  {
    assert Decimal.FromInt(d) == [digit];
  }

  /** The key of the test object with an `xid`, at the default version. */
  lemma GetKeyOfXidExample()
    ensures GetKey(Subject("MyTestClass", Some("my-xid"), "MyTestClass(xid='my-xid')"))
         == "distlock/key/v1-MyTestClass-my-xid"
  {
    GetKeyAtDigit(Subject("MyTestClass", Some("my-xid"), "MyTestClass(xid='my-xid')"),
                  1, '1', "-MyTestClass-my-xid");
  }

  /** The key of the integer `1`, identified by its `repr`. */
  lemma GetKeyOfIntExample()
    ensures GetKey(Subject("int", None, "1")) == "distlock/key/v1-int-1"
  {
    GetKeyAtDigit(Subject("int", None, "1"), 1, '1', "-int-1");
  }

  /** The key of a string at version 5: the string's `repr` follows `str`. */
  lemma GetKeyOfStrAtFive(r: string)
    ensures GetKey(Subject("str", None, r), 5) == "distlock/key/v5-str-" + r
  {
    GetKeyAtDigit(Subject("str", None, r), 5, '5', "-str-" + r);
  }

  /** The key of a string at an explicit version. */
  lemma GetKeyOfVersionedExample()
    ensures GetKey(Subject("str", None, "'my-special-key'"), 5)
         == "distlock/key/v5-str-'my-special-key'"
  {
    GetKeyOfStrAtFive("'my-special-key'");
  }
}
