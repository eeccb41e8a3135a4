// pkg/util/slice/slice.go: the read-only scans the controllers rely on.
module Slices {
  /** Index of the first occurrence, or -1. */
  method StringIndex(slice: seq<string>, str: string) returns (index: int)
    ensures -1 <= index < |slice|
    ensures index == -1 <==> str !in slice
    ensures index >= 0 ==> slice[index] == str && str !in slice[..index]
  {
    for i := 0 to |slice|
      invariant str !in slice[..i]
    {
      if slice[i] == str {
        return i;
      }
      assert slice[..i + 1] == slice[..i] + [slice[i]];
    }
    assert slice[..|slice|] == slice;
    return -1;
  }

  method ContainsString(slice: seq<string>, str: string) returns (found: bool)
    ensures found <==> str in slice
  {
    for i := 0 to |slice|
      invariant str !in slice[..i]
    {
      if slice[i] == str {
        return true;
      }
      assert slice[..i + 1] == slice[..i] + [slice[i]];
    }
    assert slice[..|slice|] == slice;
    return false;
  }
}
