/**
 * The location upload gate: every position fix is displayed, but a fix is
 * uploaded only when it is at least 50 m from the last uploaded one.
 */
module Location {
  import opened Wrappers
  import opened Geo

  /** `MIN_MOVE_METRES`. */
  const MinMoveMetres: real := 50.0

  /** An `updateLocation` call made to the profile store. */
  datatype Upload = Upload(userId: string, coords: Coords)

  /** The outcome of asking the device for its position. */
  datatype Fix =
    | Position(coords: Coords)
    | Failed(message: Option<string>)  // None: the thrown value was not an Error

  /** The hook's state; `uploads` is the history of uploaded positions, for specification only. */
  class LocationTracker {
    const dist: Distance
    var lastSent: Option<Coords>
    var location: Option<Coords>
    var error: Option<string>
    ghost var uploads: seq<Coords>

    /** `lastSent` is the latest upload, and consecutive uploads are at least 50 m apart. */
    ghost predicate Valid()
      reads this
    {
      && (lastSent.None? <==> uploads == [])
      && (lastSent.Some? ==> lastSent.value == uploads[|uploads| - 1])
      && forall i :: 0 < i < |uploads| ==> dist(uploads[i - 1], uploads[i]) >= MinMoveMetres
    }

    constructor (dist: Distance)
      ensures Valid() && this.dist == dist
      ensures lastSent == None && location == None && error == None && uploads == []
    {
      this.dist := dist;
      lastSent := None;
      location := None;
      error := None;
      uploads := [];
    }

    /** `sendToSupabase`: the movement gate on `lastSentRef`. */
    method SendToServer(user: Option<string>, coords: Coords) returns (upload: Option<Upload>)
      requires Valid()
      modifies this
      ensures Valid()
      ensures location == old(location) && error == old(error)
      ensures upload.Some? <==>
        user.Some? && (old(lastSent).None? || dist(old(lastSent).value, coords) >= MinMoveMetres)
      ensures upload.Some? ==> upload.value == Upload(user.value, coords) && lastSent == Some(coords)
      ensures upload.None? ==> lastSent == old(lastSent)
      ensures uploads == if upload.Some? then old(uploads) + [coords] else old(uploads)
    {
      if user.None? {
        return None;
      }
      var prev := lastSent;
      if prev.Some? && dist(prev.value, coords) < MinMoveMetres {
        return None;
      }
      lastSent := Some(coords);
      uploads := uploads + [coords];
      upload := Some(Upload(user.value, coords));
    }

    /** `fetchLocation`: show the fix, clear the error, then offer it to the gate. */
    method FetchLocation(user: Option<string>, fix: Fix) returns (upload: Option<Upload>)
      requires Valid()
      modifies this
      ensures Valid()
      ensures fix.Position? ==> location == Some(fix.coords) && error == None
      ensures fix.Position? ==>
        (upload.Some? <==>
          user.Some? && (old(lastSent).None? || dist(old(lastSent).value, fix.coords) >= MinMoveMetres))
      ensures upload.Some? ==>
        && fix.Position? && user.Some?
        && upload.value == Upload(user.value, fix.coords)
        && lastSent == Some(fix.coords)
        && uploads == old(uploads) + [fix.coords]
      ensures upload.None? ==> lastSent == old(lastSent) && uploads == old(uploads)
      ensures fix.Failed? ==>
        && upload.None?
        && location == old(location)
        && error == Some(fix.message.GetOr("Location error"))
    {
      match fix
      case Position(c) =>
        location := Some(c);
        error := None;
        upload := SendToServer(user, c);
      case Failed(msg) =>
        error := Some(msg.GetOr("Location error"));
        upload := None;
    }
  }
}
