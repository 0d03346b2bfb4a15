/** The user names both servers accept. */
module UserIds {
  import opened Bytes

  const MaxUserIdBytes: nat := 64

  predicate Allowed(c: byte) {
    'a' as int <= c <= 'z' as int || '0' as int <= c <= '9' as int || c == '-' as int || c == '_' as int || c == '.' as int
  }

  predicate ValidUserId(id: Text) {
    0 < |id| <= MaxUserIdBytes && forall i :: 0 <= i < |id| ==> Allowed(id[i])
  }

  method IsValidUserId(id: Text) returns (ok: bool)
    ensures ok == ValidUserId(id)
  {
    if id == [] || |id| > MaxUserIdBytes {
      return false;
    }
    for i := 0 to |id|
      invariant forall j :: 0 <= j < i ==> Allowed(id[j])
    {
      if !Allowed(id[i]) {
        return false;
      }
    }
    return true;
  }
}
