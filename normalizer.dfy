/** Filling missing values of the six filter columns of the combined table
    with the sentinel "Unknown". The numeric columns and `league` are left
    as they are. */
module Normalizer {
  import opened Wrappers
  import opened ShotData

  const UNKNOWN := "Unknown"

  /** `Series.fillna('Unknown')` on one cell. */
  function FillNa(v: Option<string>): (r: Option<string>)
    ensures r.Some?
    ensures v.Some? ==> r == v
    ensures v.None? ==> r == Some(UNKNOWN)
  {
    if v.Some? then v else Some(UNKNOWN)
  }

  /** `df[c] = df[c].fillna('Unknown')`: one column is filled, every other
      column of every row is left alone. */
  function FillColumn(rows: seq<Shot>, c: Category): (r: seq<Shot>)
    ensures |r| == |rows|
    ensures forall i :: 0 <= i < |r| ==> Get(r[i], c).Some?
    ensures forall i :: 0 <= i < |r| && Get(rows[i], c).Some? ==> Get(r[i], c) == Get(rows[i], c)
    ensures forall i :: 0 <= i < |r| && Get(rows[i], c).None? ==> Get(r[i], c) == Some(UNKNOWN)
    ensures forall i, d :: 0 <= i < |r| && d != c ==> Get(r[i], d) == Get(rows[i], d)
    ensures forall i :: 0 <= i < |r| ==>
      r[i].league == rows[i].league && r[i].locationX == rows[i].locationX
      && r[i].locationY == rows[i].locationY && r[i].xg == rows[i].xg
  {
    seq(|rows|, i requires 0 <= i < |rows| => Set(rows[i], c, FillNa(Get(rows[i], c))))
  }

  /** No filter column of the row is missing. */
  predicate Complete(s: Shot)
  {
    forall c :: Get(s, c).Some?
  }

  /** One row with all six filter columns filled. */
  function NormalizeShot(s: Shot): (r: Shot)
    ensures Complete(r)
    ensures forall c :: Get(r, c) == if Get(s, c).Some? then Get(s, c) else Some(UNKNOWN)
    ensures r.league == s.league && r.locationX == s.locationX && r.locationY == s.locationY && r.xg == s.xg
  {
    s.(team := FillNa(s.team), player := FillNa(s.player), game := FillNa(s.game),
       situation := FillNa(s.situation), bodyPart := FillNa(s.bodyPart), result := FillNa(s.result))
  }

  /** The normalised table: same rows, in the same order; every filter column
      is present afterwards; a value that was present is unchanged, a missing
      one becomes "Unknown"; `league` and the numeric columns are untouched. */
  function Normalize(rows: seq<Shot>): (r: seq<Shot>)
    ensures |r| == |rows|
    ensures forall i :: 0 <= i < |r| ==> Complete(r[i])
    ensures forall i, c :: 0 <= i < |r| ==>
      Get(r[i], c) == if Get(rows[i], c).Some? then Get(rows[i], c) else Some(UNKNOWN)
    ensures forall i :: 0 <= i < |r| ==>
      r[i].league == rows[i].league && r[i].locationX == rows[i].locationX
      && r[i].locationY == rows[i].locationY && r[i].xg == rows[i].xg
  {
    seq(|rows|, i requires 0 <= i < |rows| => NormalizeShot(rows[i]))
  }

  /** The six column assignments of the script, one after the other. */
  method FillMissing(df: seq<Shot>) returns (out: seq<Shot>)
    ensures out == Normalize(df)
  {
    out := FillColumn(df, Team);
    out := FillColumn(out, Player);
    out := FillColumn(out, Game);
    out := FillColumn(out, Situation);
    out := FillColumn(out, BodyPart);
    out := FillColumn(out, Outcome);
    forall i | 0 <= i < |out|
      ensures out[i] == Normalize(df)[i]
    {
      assert forall c :: Get(out[i], c) == Get(Normalize(df)[i], c);
      assert out[i].team == Get(out[i], Team);
      assert out[i].player == Get(out[i], Player);
      assert out[i].game == Get(out[i], Game);
      assert out[i].situation == Get(out[i], Situation);
      assert out[i].bodyPart == Get(out[i], BodyPart);
      assert out[i].result == Get(out[i], Outcome);
    }
  }

  /** A table whose filter columns are all present is left unchanged. */
  lemma NormalizeComplete(rows: seq<Shot>)
    requires forall i :: 0 <= i < |rows| ==> Complete(rows[i])
    ensures Normalize(rows) == rows
  {
    forall i | 0 <= i < |rows|
      ensures Normalize(rows)[i] == rows[i]
    {
      assert Get(rows[i], Team).Some? && Get(rows[i], Player).Some? && Get(rows[i], Game).Some?;
      assert Get(rows[i], Situation).Some? && Get(rows[i], BodyPart).Some? && Get(rows[i], Outcome).Some?;
    }
  }

  /** Normalising twice is normalising once. */
  lemma NormalizeIdempotent(rows: seq<Shot>)
    ensures Normalize(Normalize(rows)) == Normalize(rows)
  {
    NormalizeComplete(Normalize(rows));
  }
}
