/** `onRequestPermissionsResult` of the Android host: for its own request
    code it reduces the grant results to "all granted" or not and shows
    the matching toast. */
module Permissions {
  import opened Optional

  const PermissionRequestCode := 1001
  /** `PackageManager.PERMISSION_GRANTED`. */
  const PermissionGranted := 0

  datatype PermissionToast =
    | FullFunctionality    // "MediLink permissions granted - ..."
    | LimitedFunctionality // "Some permissions denied - ..."

  /** The reduction over `grantResults`, with its early `break`; `None`
      when the request code is not ours (no toast). An empty result array
      counts as all granted. */
  method OnRequestPermissionsResult(requestCode: int, grantResults: seq<int>) returns (r: Option<PermissionToast>)
    ensures r.None? <==> requestCode != PermissionRequestCode
    ensures r == Some(FullFunctionality) <==>
      requestCode == PermissionRequestCode &&
      forall i :: 0 <= i < |grantResults| ==> grantResults[i] == PermissionGranted
  {
    if requestCode != PermissionRequestCode {
      return None;
    }
    var allGranted := true;
    var i := 0;
    while i < |grantResults|
      invariant 0 <= i <= |grantResults|
      invariant allGranted
      invariant forall j :: 0 <= j < i ==> grantResults[j] == PermissionGranted
    {
      if grantResults[i] != PermissionGranted {
        allGranted := false;
        break;
      }
      i := i + 1;
    }
    assert allGranted <==> forall j :: 0 <= j < |grantResults| ==> grantResults[j] == PermissionGranted;
    r := Some(if allGranted then FullFunctionality else LimitedFunctionality);
  }
}
