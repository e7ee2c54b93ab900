/** The small text predicates the engine and its validators share. */
module Text {

  datatype Result<+T, +E> = Ok(value: T) | Err(error: E)

  const U64 := 0x1_0000_0000_0000_0000

  type u64 = n: int | 0 <= n < 0x1_0000_0000_0000_0000

  datatype Option<+T> = None | Some(value: T)

  /** Unicode White_Space, which is what trimming strips. */
  predicate IsWhitespace(c: char) {
    || '\U{0009}' <= c <= '\U{000D}' || c == ' ' || c == '\U{0085}' || c == '\U{00A0}' || c == '\U{1680}'
    || '\U{2000}' <= c <= '\U{200A}' || c == '\U{2028}' || c == '\U{2029}' || c == '\U{202F}'
    || c == '\U{205F}' || c == '\U{3000}'
  }

  /** True when trimming leaves nothing. */
  predicate IsBlank(s: string) {
    forall i :: 0 <= i < |s| ==> IsWhitespace(s[i])
  }

  predicate IsLowerHex(c: char) {
    '0' <= c <= '9' || 'a' <= c <= 'f'
  }

  predicate AllLowerHex(s: string) {
    forall i :: 0 <= i < |s| ==> IsLowerHex(s[i])
  }

  predicate IsDigest(s: string) {
    |s| == 64 && AllLowerHex(s)
  }

  predicate ValidId(s: string) {
    && s != []
    && forall i :: 0 <= i < |s| ==>
         || 'a' <= s[i] <= 'z' || '0' <= s[i] <= '9'
         || (i > 0 && (s[i] == '.' || s[i] == '_' || s[i] == '-'))
  }

  const RUN_IDENTITY_PREFIX := "dag-v1:"

  predicate IsRunIdentity(s: string) {
    && RUN_IDENTITY_PREFIX <= s
    && var tail := s[|RUN_IDENTITY_PREFIX|..];
       tail != [] && |tail| % 2 == 0 && AllLowerHex(tail)
  }

  /** The identity the engine forms from any digest is one the manifest validator admits. */
  lemma DigestMakesRunIdentity(digest: string)
    requires IsDigest(digest)
    ensures IsRunIdentity(RUN_IDENTITY_PREFIX + digest)
  {
    assert (RUN_IDENTITY_PREFIX + digest)[|RUN_IDENTITY_PREFIX|..] == digest;
  }
}
