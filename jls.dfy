/** The jail selection of the jls command. */
module Jls {
  import opened GoTypes
  import opened JailTypes
  import Seqs

  /** The test jls applies: the jail's id equals the requested jid cut to 32 bits. */
  function HasId(jid: int64): Jail -> bool {
    (j: Jail) => j.id == Int32Of(jid)
  }

  /**
   * filter: every jail for jid -1 (the default of -j); otherwise the jails
   * whose id is jid truncated to int32, in their original order.
   */
  method Filter(jails: seq<Jail>, jid: int64) returns (filtered: seq<Jail>)
    ensures jid == -1 ==> filtered == jails
    ensures jid != -1 ==> filtered == Seqs.Filter(jails, HasId(jid))
  {
    if jid == -1 {
      return jails;
    }
    filtered := [];
    for i := 0 to |jails|
      invariant filtered == Seqs.Filter(jails[..i], HasId(jid))
    {
      Seqs.FilterSnoc(jails, i, HasId(jid));
      if jails[i].id == Int32Of(jid) {
        filtered := filtered + [jails[i]];
      }
    }
    assert jails[..|jails|] == jails;
  }

  /**
   * For a jid other than -1 the selection holds exactly the input's jails
   * with that id (after truncation), as a subsequence of the input, so it
   * is never longer.
   */
  lemma FilterSelection(jails: seq<Jail>, jid: int64)
    ensures var r := Seqs.Filter(jails, HasId(jid));
      && |r| <= |jails|
      && (forall j :: j in r <==> j in jails && j.id == Int32Of(jid))
      && exists idx: seq<nat> ::
           && |idx| == |r|
           && Seqs.Increasing(idx)
           && forall k | 0 <= k < |idx| :: idx[k] < |jails| && r[k] == jails[idx[k]]
  {
    var r := Seqs.Filter(jails, HasId(jid));
    forall j ensures j in r <==> j in jails && j.id == Int32Of(jid) {
      Seqs.FilterMembers(jails, HasId(jid), j);
    }
    Seqs.FilterSubsequence(jails, HasId(jid));
    var idx := Seqs.Positions(jails, HasId(jid));
    assert |idx| == |r|;
  }

  /** The -j value is cut to 32 bits: asking for 2^32 + 5 lists jail 5. */
  lemma FilterTruncatesJid(j: Jail)
    requires j.id == 5
    ensures Seqs.Filter([j], HasId(0x1_0000_0005)) == [j]
  {
    assert Int32Of(0x1_0000_0005) == 5;
    assert [j][..0] == [];
  }
}
