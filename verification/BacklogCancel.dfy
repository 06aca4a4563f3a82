/**
  Cancelling queued backlog downloads by video: what the endpoint deletes, what
  it reports, and why its clean-up of the download queue never finds anything.
 */
module BacklogCancel {
  import opened Wrappers
  import VodQueueSpec

  datatype Row = Row(stream: nat, status: VodQueueSpec.Status)

  type Streams = map<nat, string>  // stream id -> its video
  type Rows = map<nat, Row>

  /** The UNIQUE constraint on videos. */
  ghost predicate OneStreamPerVideo(streams: Streams) {
    forall a, b :: a in streams && b in streams && streams[a] == streams[b] ==> a == b
  }

  /** A vod_queued recording of one of the videos. */
  predicate Selected(id: nat, streams: Streams, rows: Rows, videos: seq<string>) {
    id in rows && rows[id].status == VodQueueSpec.VodQueued && rows[id].stream in streams
    && streams[rows[id].stream] in videos
  }

  predicate HasRows(stream: nat, rows: Rows) {
    exists id :: id in rows && rows[id].stream == stream
  }

  /** VodQueue.cancel_by_youtube_id: the recording it would pass to cancel(), if it finds one. */
  function ToCancel(streams: Streams, rows: Rows, video: string): Option<nat> {
    var ids := set id | id in rows && rows[id].stream in streams && streams[rows[id].stream] == video
                        && rows[id].status in {VodQueueSpec.VodQueued, VodQueueSpec.VodDownloading};
    if ids == {} then None else Some(VodQueueSpec.Least(ids))
  }

  /** Deleting `gone` took this stream's last recording. */
  ghost predicate Emptied(s: nat, rows: Rows, gone: set<nat>) {
    HasRows(s, rows) && !HasRows(s, rows - gone)
  }

  /** The state between two turns of the deletion loop. */
  ghost predicate Progress(streams0: Streams, rows0: Rows, gone: set<nat>, streams: Streams, rows: Rows, cancelled: seq<string>) {
    && rows == rows0 - gone
    && (forall s :: s in streams <==> s in streams0 && !Emptied(s, rows0, gone))
    && (forall s :: s in streams ==> streams[s] == streams0[s])
    && (forall v :: v in cancelled <==> exists s :: s in streams0 && s !in streams && streams0[s] == v)
    && (forall j, k :: 0 <= j < k < |cancelled| ==> cancelled[j] != cancelled[k])
  }

  lemma NothingDeleted(streams: Streams, rows: Rows)
    ensures Progress(streams, rows, {}, streams, rows, [])
  {
    assert rows - {} == rows;
  }

  lemma EmptiedByOneMore(s: nat, rows: Rows, gone: set<nat>, id: nat)
    requires id in rows && id !in gone
    ensures s != rows[id].stream ==> (Emptied(s, rows, gone + {id}) <==> Emptied(s, rows, gone))
    ensures s == rows[id].stream ==> !Emptied(s, rows, gone) && (Emptied(s, rows, gone + {id}) <==> !HasRows(s, rows - (gone + {id})))
  {
    assert rows - (gone + {id}) == rows - gone - {id};
    assert id in rows - gone;
    if r :| r in rows - gone && (rows - gone)[r].stream == s && s != rows[id].stream {
      assert r in rows - (gone + {id});
    }
  }

  lemma OneMoreDeleted(streams0: Streams, rows0: Rows, gone: set<nat>, streams: Streams, rows: Rows, cancelled: seq<string>, id: nat)
    requires Progress(streams0, rows0, gone, streams, rows, cancelled) && OneStreamPerVideo(streams0)
    requires id in rows0 && id !in gone && rows0[id].stream in streams0
    ensures id in rows && rows[id].stream in streams && rows[id] == rows0[id]
    ensures var s, left := rows[id].stream, rows - {id};
            if HasRows(s, left) then Progress(streams0, rows0, gone + {id}, streams, left, cancelled)
            else Progress(streams0, rows0, gone + {id}, streams - {s}, left, cancelled + [streams[s]])
  {
    var s := rows0[id].stream;
    forall t
      ensures t != s ==> (Emptied(t, rows0, gone + {id}) <==> Emptied(t, rows0, gone))
      ensures t == s ==> !Emptied(t, rows0, gone) && (Emptied(t, rows0, gone + {id}) <==> !HasRows(t, rows0 - (gone + {id})))
    {
      EmptiedByOneMore(t, rows0, gone, id);
    }
    hide Emptied, HasRows;
    assert rows0 - (gone + {id}) == rows - {id};
    var more := cancelled + [streams0[s]];
    assert forall v :: v in more <==> v in cancelled || v == streams0[s];
    assert streams0[s] !in cancelled;
  }

  /** All selected recordings gone: what the endpoint promises. */
  lemma AllDeleted(streams0: Streams, rows0: Rows, videos: seq<string>, gone: set<nat>, streams: Streams, rows: Rows, cancelled: seq<string>)
    requires Progress(streams0, rows0, gone, streams, rows, cancelled) && OneStreamPerVideo(streams0)
    requires forall id :: id in gone <==> Selected(id, streams0, rows0, videos)
    ensures forall id :: id in rows <==>
              id in rows0 && !(rows0[id].status == VodQueueSpec.VodQueued && rows0[id].stream in streams0
                               && streams0[rows0[id].stream] in videos)
    ensures forall id :: id in rows ==> rows[id] == rows0[id]
    ensures forall s :: s in streams <==>
              s in streams0 && ((exists id :: id in rows0 && rows0[id].stream == s) ==> (exists id :: id in rows && rows[id].stream == s))
    ensures forall s :: s in streams ==> streams[s] == streams0[s]
    ensures forall v :: v in cancelled <==> exists s :: s in streams0 && s !in streams && streams0[s] == v
    ensures forall i, j :: 0 <= i < j < |cancelled| ==> cancelled[i] != cancelled[j]
    ensures forall v, s :: v in cancelled && s in streams ==> streams[s] != v
    ensures forall v :: v in cancelled ==> ToCancel(streams, rows, v).None?
  {
    forall v, t | v in cancelled && t in streams
      ensures streams[t] != v
    {
      var s :| s in streams0 && s !in streams && streams0[s] == v;
    }
  }

  /** The recording the clean-up would cancel: the least queued or downloading one of the video. */
  lemma ToCancelMeans(streams: Streams, rows: Rows, video: string, id: nat)
    ensures ToCancel(streams, rows, video) == Some(id) <==>
              && Waits(streams, rows, video, id)
              && forall other :: Waits(streams, rows, video, other) ==> id <= other
  {
    var ids := set id | id in rows && rows[id].stream in streams && streams[rows[id].stream] == video
                        && rows[id].status in {VodQueueSpec.VodQueued, VodQueueSpec.VodDownloading};
    assert forall other :: other in ids <==> Waits(streams, rows, video, other);
    hide Waits;
    if ids != {} {
      var least := VodQueueSpec.Least(ids);
      assert forall other :: other in ids ==> least <= other;
    }
  }

  ghost predicate Waits(streams: Streams, rows: Rows, video: string, id: nat) {
    && id in rows && rows[id].stream in streams && streams[rows[id].stream] == video
    && (rows[id].status == VodQueueSpec.VodQueued || rows[id].status == VodQueueSpec.VodDownloading)
  }

  /** The recordings to delete, in the order of their ids. */
  function Chosen(streams: Streams, rows: Rows, videos: seq<string>): (ids: seq<nat>)
    ensures forall id :: id in ids <==> Selected(id, streams, rows, videos)
    ensures forall i :: 0 <= i < |ids| ==> ids[i] in rows && rows[ids[i]].stream in streams
    ensures forall i, j :: 0 <= i < j < |ids| ==> ids[i] != ids[j]
  {
    var ids := VodQueueSpec.Ascending(set id | id in rows && Selected(id, streams, rows, videos));
    assert forall i :: 0 <= i < |ids| ==> ids[i] in ids;
    ids
  }

  class Backlog {
    var streams: Streams
    var rows: Rows

    /**
      POST /backlog/cancel: every selected recording goes, and with its last
      recording a stream goes and its video is reported, once.  The queue's
      clean-up then finds no recording for any reported video.
     */
    method CancelDownloads(videos: seq<string>) returns (cancelled: seq<string>)
      requires OneStreamPerVideo(streams)
      modifies this
      ensures forall id :: id in rows <==>
                id in old(rows) && !(old(rows)[id].status == VodQueueSpec.VodQueued && old(rows)[id].stream in old(streams)
                                     && old(streams)[old(rows)[id].stream] in videos)
      ensures forall id :: id in rows ==> rows[id] == old(rows)[id]
      ensures forall s :: s in streams <==>
                s in old(streams) && ((exists id :: id in old(rows) && old(rows)[id].stream == s) ==> (exists id :: id in rows && rows[id].stream == s))
      ensures forall s :: s in streams ==> streams[s] == old(streams)[s]
      ensures forall v :: v in cancelled <==> exists s :: s in old(streams) && s !in streams && old(streams)[s] == v
      ensures forall i, j :: 0 <= i < j < |cancelled| ==> cancelled[i] != cancelled[j]
      ensures forall v, s :: v in cancelled && s in streams ==> streams[s] != v
      ensures forall v :: v in cancelled ==> ToCancel(streams, rows, v).None?
    {
      hide *;
      var ids := Chosen(streams, rows, videos);
      cancelled := [];
      ghost var gone := {};
      NothingDeleted(streams, rows);
      var i := 0;
      while i < |ids|
        invariant i <= |ids|
        invariant Progress(old(streams), old(rows), gone, streams, rows, cancelled)
        invariant forall id :: id in gone <==> id in ids[..i]
      {
        var id := ids[i];
        assert id !in ids[..i];
        assert ids[..i + 1] == ids[..i] + [id];
        OneMoreDeleted(old(streams), old(rows), gone, streams, rows, cancelled, id);
        var s := rows[id].stream;
        rows := rows - {id};
        if !HasRows(s, rows) {
          cancelled := cancelled + [streams[s]];
          streams := streams - {s};
        }
        gone := gone + {id};
        i := i + 1;
      }
      assert ids[..i] == ids;
      AllDeleted(old(streams), old(rows), videos, gone, streams, rows, cancelled);
    }
  }
}
