/**
 * The invitation link a teacher copies for students, and the way the router
 * reads a room link back into the room id and the `role` search parameter.
 */
module ShareLink {
  import opened Wrappers
  import opened Strings
  import opened Protocol

  const MeetingPrefix := "/meeting/"
  const RoleQueryPrefix := "?role="

  /** What the route `/meeting/:roomId` and `searchParams.get("role")` extract from a link. */
  datatype RouteMatch = RouteMatch(roomId: string, role: Option<string>)

  /**
   * A room id fits in one path segment and needs no decoding: no `/`, `?`, `#`
   * or `%` (true of the UUIDs rooms are created with).
   */
  predicate SegmentSafe(s: string)
  {
    forall i :: 0 <= i < |s| ==> s[i] != '/' && s[i] != '?' && s[i] != '#' && s[i] != '%'
  }

  /** A path segment with one trailing `/` removed, as the router tolerates it. */
  function TrimTrailingSlash(s: string): (r: string)
  {
    if s != [] && s[|s| - 1] == '/' then s[..|s| - 1] else s
  }

  /**
   * Matches `url`, served from `origin`, against `/meeting/:roomId`. A `#`
   * fragment is cut off first; the query is read only in the single-parameter
   * form `?role=<value>`.
   */
  function ParseRoomLink(origin: string, url: string): (r: Option<RouteMatch>)
    ensures r.Some? ==> StartsWith(url, origin) && r.value.roomId != [] && '/' !in r.value.roomId
    ensures r.Some? && r.value.role.Some? ==> '#' !in r.value.role.value
  {
    if !StartsWith(url, origin) then None
    else
      var full := url[|origin|..];
      var rest := full[..IndexOf(full, '#')];
      var q := IndexOf(rest, '?');
      var path, query := rest[..q], rest[q..];
      if !StartsWith(path, MeetingPrefix) then None
      else
        var segment := TrimTrailingSlash(path[|MeetingPrefix|..]);
        if segment == [] || '/' in segment then None
        else
          var role := if StartsWith(query, RoleQueryPrefix) then Some(query[|RoleQueryPrefix|..]) else None;
          Some(RouteMatch(segment, role))
  }

  /**
   * A room link `${origin}/meeting/${roomId}?role=${value}` leads back to the
   * same room with the same role, for a segment-safe room id and a role value
   * without a fragment mark.
   */
  lemma RoleLinkRoundTrip(origin: string, roomId: string, value: string)
    requires roomId != [] && SegmentSafe(roomId) && '#' !in value
    ensures ParseRoomLink(origin, origin + MeetingPrefix + roomId + RoleQueryPrefix + value)
         == Some(RouteMatch(roomId, Some(value)))
  {
    var url := origin + MeetingPrefix + roomId + RoleQueryPrefix + value;
    var path := MeetingPrefix + roomId;
    var query := RoleQueryPrefix + value;
    var full := path + query;
    assert url == origin + full;
    assert StartsWith(url, origin) && url[|origin|..] == full;
    forall i | 0 <= i < |full| ensures full[i] != '#' {
      if i < |path| {
        if i >= |MeetingPrefix| {
          assert full[i] == roomId[i - |MeetingPrefix|];
        }
      } else if i >= |path| + |RoleQueryPrefix| {
        assert full[i] == value[i - |path| - |RoleQueryPrefix|];
      }
    }
    assert full[..IndexOf(full, '#')] == full;
    forall i | 0 <= i < |path| ensures full[i] != '?' {
      if i >= |MeetingPrefix| {
        assert full[i] == roomId[i - |MeetingPrefix|];
      }
    }
    IndexOfAt(full, '?', |path|);
    assert full[..|path|] == path && full[|path|..] == query;
    assert StartsWith(path, MeetingPrefix) && path[|MeetingPrefix|..] == roomId;
    assert roomId[|roomId| - 1] != '/';
    assert TrimTrailingSlash(roomId) == roomId;
    assert '/' !in roomId by {
      forall i | 0 <= i < |roomId| ensures roomId[i] != '/' { }
    }
    assert StartsWith(query, RoleQueryPrefix) && query[|RoleQueryPrefix|..] == value;
  }

  /**
   * The invitation link `${origin}/meeting/${roomId}?role=student`: opening it
   * lands in the same room as a student, and so not yet admitted.
   */
  function StudentLink(origin: string, roomId: string): (link: string)
    ensures roomId != [] && SegmentSafe(roomId) ==>
      ParseRoomLink(origin, link) == Some(RouteMatch(roomId, Some("student")))
  {
    var link := origin + MeetingPrefix + roomId + RoleQueryPrefix + "student";
    if roomId != [] && SegmentSafe(roomId) then
      RoleLinkRoundTrip(origin, roomId, "student");
      link
    else
      link
  }
}
