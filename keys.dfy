/** Cache keys: `entityType + ":" + id`, with numeric ids written in decimal. */
module Keys {

  function DigitChar(d: nat): (c: char)
    requires d < 10
    ensures '0' <= c <= '9'
  {
    ('0' as int + d) as char
  }

  /** The decimal rendering of an unsigned id (`strconv.FormatUint(v, 10)`): a non-empty
      string of digits without a leading zero. */
  function UintToString(n: nat): (s: string)
    ensures 1 <= |s|
    ensures forall i :: 0 <= i < |s| ==> '0' <= s[i] <= '9'
    ensures s[0] == '0' ==> n == 0
    ensures n < 10 <==> |s| == 1
    decreases n
  {
    if n < 10 then [DigitChar(n)] else UintToString(n / 10) + [DigitChar(n % 10)]
  }

  /** Different ids give different decimal strings, so different cache keys. */
  lemma {:induction false} UintToStringInjective(a: nat, b: nat)
    ensures UintToString(a) == UintToString(b) ==> a == b
    decreases a
  {
    if UintToString(a) == UintToString(b) {
      if a < 10 || b < 10 {
        assert a < 10 && b < 10;
        assert DigitChar(a) == UintToString(a)[0] == UintToString(b)[0] == DigitChar(b);
      } else {
        var sa, sb := UintToString(a / 10), UintToString(b / 10);
        assert UintToString(a) == sa + [DigitChar(a % 10)];
        assert UintToString(b) == sb + [DigitChar(b % 10)];
        assert |sa| == |sb|;
        assert DigitChar(a % 10) == UintToString(a)[|sa|] == UintToString(b)[|sb|] == DigitChar(b % 10);
        assert sa == UintToString(a)[..|sa|] == UintToString(b)[..|sb|] == sb;
        UintToStringInjective(a / 10, b / 10);
      }
    }
  }

  /** The key under which an entity of a type is stored in the cache. */
  function Key(entityType: string, id: string): string
  {
    entityType + ":" + id
  }

  function PostKey(id: nat): string { Key("post", UintToString(id)) }

  function UserIdKey(id: nat): string { Key("user", UintToString(id)) }

  function UserEmailKey(email: string): string { Key("user", email) }

  /** Keys of one entity type are equal exactly when the ids are. */
  lemma {:induction false} KeyInjective(entityType: string, a: string, b: string)
    ensures Key(entityType, a) == Key(entityType, b) <==> a == b
  {
    if Key(entityType, a) == Key(entityType, b) {
      var n := |entityType| + 1;
      assert a == Key(entityType, a)[n..];
      assert b == Key(entityType, b)[n..];
    }
  }

  lemma PostKeyInjective(a: nat, b: nat)
    ensures PostKey(a) == PostKey(b) <==> a == b
  {
    KeyInjective("post", UintToString(a), UintToString(b));
    UintToStringInjective(a, b);
  }

  lemma UserIdKeyInjective(a: nat, b: nat)
    ensures UserIdKey(a) == UserIdKey(b) <==> a == b
  {
    KeyInjective("user", UintToString(a), UintToString(b));
    UintToStringInjective(a, b);
  }

  /** A post key is never a user key, whatever the user key's id part. */
  lemma PostKeyIsNotUserKey(n: nat, id: string)
    ensures PostKey(n) != Key("user", id)
  {
    assert PostKey(n)[0] == 'p';
    assert Key("user", id)[0] == 'u';
  }

  /** A user-by-id key is never a user-by-email key for an email containing '@'. */
  lemma {:induction false} UserIdKeyIsNotEmailKey(n: nat, email: string)
    requires '@' in email
    ensures UserIdKey(n) != UserEmailKey(email)
  {
    KeyInjective("user", UintToString(n), email);
    var i :| 0 <= i < |email| && email[i] == '@';
    assert i < |UintToString(n)| ==> UintToString(n)[i] != '@';
  }
}
