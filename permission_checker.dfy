/**
 * The runtime-permission helpers (PermissionChecker.java): which of the
 * requested permissions the user denied, and whether all of a list of
 * permissions are granted. The operating system's answer for a permission is
 * a function from its name to the result code.
 */
module PermissionChecker {

  /** The result code of a granted permission; any other code means denied. */
  const PERMISSION_GRANTED: int := 0

  /** The positions below n whose result is not PERMISSION_GRANTED, in ascending order. */
  function DeniedIndices(grantResults: seq<int>, n: nat): (idx: seq<nat>)
    requires n <= |grantResults|
    ensures |idx| <= n
    ensures forall j :: 0 <= j < |idx| ==> idx[j] < n && grantResults[idx[j]] != PERMISSION_GRANTED
    ensures forall j, k :: 0 <= j < k < |idx| ==> idx[j] < idx[k]
    ensures forall i :: 0 <= i < n && grantResults[i] != PERMISSION_GRANTED ==> i in idx
  {
    if n == 0 then []
    else
      var before := DeniedIndices(grantResults, n - 1);
      if grantResults[n - 1] != PERMISSION_GRANTED then before + [n - 1] else before
  }

  /** When every one of the first n results is granted, none of them is denied. */
  lemma {:induction false} AllGrantedNoneDenied(grantResults: seq<int>, n: nat)
    requires n <= |grantResults|
    requires forall i :: 0 <= i < n ==> grantResults[i] == PERMISSION_GRANTED
    ensures DeniedIndices(grantResults, n) == []
  {
    if n > 0 {
      AllGrantedNoneDenied(grantResults, n - 1);
    }
  }

  /** The permissions among the first n whose result is not PERMISSION_GRANTED, in their order. */
  function DeniedAmong(permissions: seq<string>, grantResults: seq<int>, n: nat): seq<string>
    requires n <= |permissions| <= |grantResults|
  {
    var idx := DeniedIndices(grantResults, n);
    seq(|idx|, j requires 0 <= j < |idx| => permissions[idx[j]])
  }

  /**
   * checkDeniedPermission: the permissions whose result is not granted, in
   * the order they were requested. Results are read at the positions of the
   * permissions, so there must be a result for each.
   */
  method CheckDeniedPermission(permissions: array<string>, grantResults: array<int>) returns (denied: seq<string>)
    requires permissions.Length <= grantResults.Length
    ensures denied == DeniedAmong(permissions[..], grantResults[..], permissions.Length)
    ensures |denied| <= permissions.Length
    ensures (forall i :: 0 <= i < permissions.Length ==> grantResults[i] == PERMISSION_GRANTED) ==> denied == []
  {
    denied := [];
    var i := 0;
    while i < permissions.Length
      invariant i <= permissions.Length
      invariant denied == DeniedAmong(permissions[..], grantResults[..], i)
    {
      var perm := permissions[i];
      if grantResults[i] != PERMISSION_GRANTED {
        denied := denied + [perm];
      }
      i := i + 1;
    }
    if forall i :: 0 <= i < permissions.Length ==> grantResults[i] == PERMISSION_GRANTED {
      AllGrantedNoneDenied(grantResults[..], permissions.Length);
    }
  }

  /**
   * hasPermissions: true exactly when every permission is granted. The
   * permissions are asked in order and the first denied one ends the search;
   * `queried` counts the questions asked.
   */
  method HasPermissions(checkSelfPermission: string -> int, perms: array<string>) returns (hasAll: bool, ghost queried: nat)
    ensures hasAll <==> forall i :: 0 <= i < perms.Length ==> checkSelfPermission(perms[i]) == PERMISSION_GRANTED
    ensures hasAll ==> queried == perms.Length
    ensures !hasAll ==> 1 <= queried <= perms.Length && checkSelfPermission(perms[queried - 1]) != PERMISSION_GRANTED
    ensures !hasAll ==> forall j :: 0 <= j < queried - 1 ==> checkSelfPermission(perms[j]) == PERMISSION_GRANTED
  {
    queried := 0;
    for i := 0 to perms.Length
      invariant queried == i
      invariant forall j :: 0 <= j < i ==> checkSelfPermission(perms[j]) == PERMISSION_GRANTED
    {
      var hasPerm := checkSelfPermission(perms[i]) == PERMISSION_GRANTED;
      queried := queried + 1;
      if !hasPerm {
        return false, queried;
      }
    }
    return true, queried;
  }
}
