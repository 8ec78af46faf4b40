/** The torrent engine, the media player and the file system as the playback code sees
    them: the requests it makes of them, in order, and the status readings it polls. */
module Engine {
  import opened Wrappers

  /** Flags a torrent is added with. */
  datatype Flag = SequentialDownload | UploadMode | Paused

  /** One request made of the engine, the player or the file system. */
  datatype Action =
    | AddTorrent(magnet: string, trackers: seq<string>, flags: set<Flag>)
    | DeleteFile(path: string)
    | PrioritizeFiles(priorities: seq<int>)
    | RenameFile(index: int, path: string)
    | UnsetUploadMode
    | Resume
    | LaunchPlayer(path: string)
    | WaitForPlayer
    | RemoveTorrent

  /** Where a `while not reading` loop stops: the index of the first true reading, or
      None when every reading is false (the loop is still waiting when they run out). */
  function FirstTrue(readings: seq<bool>): (k: Option<nat>)
    ensures k.Some? ==> k.value < |readings| && readings[k.value]
    ensures k.Some? ==> forall j :: 0 <= j < k.value ==> !readings[j]
    ensures k.None? ==> forall j :: 0 <= j < |readings| ==> !readings[j]
  {
    if readings == [] then None
    else if readings[0] then Some(0)
    else
      match FirstTrue(readings[1..])
      case None => None
      case Some(k) => Some(k + 1)
  }

  /** Where a `while reading < threshold` loop stops: the index of the first reading at
      or above the threshold (the boundary counts), or None when all are below it. */
  function FirstAtLeast(readings: seq<int>, threshold: int): (k: Option<nat>)
    ensures k.Some? ==> k.value < |readings| && readings[k.value] >= threshold
    ensures k.Some? ==> forall j :: 0 <= j < k.value ==> readings[j] < threshold
    ensures k.None? ==> forall j :: 0 <= j < |readings| ==> readings[j] < threshold
  {
    if readings == [] then None
    else if readings[0] >= threshold then Some(0)
    else
      match FirstAtLeast(readings[1..], threshold)
      case None => None
      case Some(k) => Some(k + 1)
  }

  /** Polls a yes/no status until it reads true. */
  method WaitUntil(readings: seq<bool>) returns (k: Option<nat>)
    ensures k == FirstTrue(readings)
  {
    var i := 0;
    while i < |readings| && !readings[i]
      invariant i <= |readings|
      invariant forall j :: 0 <= j < i ==> !readings[j]
    {
      i := i + 1;
    }
    k := if i < |readings| then Some(i) else None;
  }

  /** Polls a byte count until it reaches `threshold`. */
  method WaitUntilAtLeast(readings: seq<int>, threshold: int) returns (k: Option<nat>)
    ensures k == FirstAtLeast(readings, threshold)
  {
    var i := 0;
    while i < |readings| && readings[i] < threshold
      invariant i <= |readings|
      invariant forall j :: 0 <= j < i ==> readings[j] < threshold
    {
      i := i + 1;
    }
    k := if i < |readings| then Some(i) else None;
  }
}
