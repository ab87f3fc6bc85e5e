/** The per-state table `state_df` as the script builds it: constructed
    from the group-by sums, its index reset in place, then three columns
    added one after another (short_paper_code.py, lines 33-49). */
module Frame {
  import opened Wrappers
  import opened Survey

  /** A row label of the table: the state key the group-by sums are
      indexed by, or a position after `reset_index(drop=True)`. */
  datatype IndexLabel = Key(state: string) | Position(pos: nat)

  class StateFrame {
    var index: seq<IndexLabel>
    var state: seq<string>
    var voted: seq<nat>
    var registered: seq<nat>
    var dem: seq<nat>
    var rep: seq<nat>
    var demSenate: seq<nat>
    var repSenate: seq<nat>
    var demOrRep: seq<nat>
    var pDem: seq<Option<real>>
    var earlyVoting: seq<string>

    /** Every column built by the constructor has one entry per state. */
    predicate Valid()
      reads this
    {
      && |index| == |state|
      && |voted| == |state| && |registered| == |state|
      && |dem| == |state| && |rep| == |state|
      && |demSenate| == |state| && |repSenate| == |state|
    }

    /** All three derived columns have been added. */
    predicate Complete()
      reads this
    {
      Valid() && |demOrRep| == |state| && |pDem| == |state| && |earlyVoting| == |state|
    }

    /** The table read row by row. */
    function Rows(): (r: seq<StateRow>)
      reads this
      requires Complete()
      ensures |r| == |state|
    {
      seq(|state|, i requires 0 <= i < |state| && Complete() reads this =>
        StateRow(state[i], voted[i], registered[i], dem[i], rep[i],
                 demSenate[i], repSenate[i], demOrRep[i], pDem[i], earlyVoting[i]))
    }

    /** `pd.DataFrame({...})` from the six group-by sums (lines 15-35):
        one row per distinct state, indexed by its state key. */
    constructor (recs: seq<VotingRecord>)
      ensures Valid()
      ensures state == States(recs)
      ensures forall i :: 0 <= i < |state| ==> index[i] == Key(state[i])
      ensures forall i :: 0 <= i < |state| ==>
        && voted[i] == StateTotal(recs, state[i], Voted)
        && registered[i] == StateTotal(recs, state[i], Registered)
        && dem[i] == StateTotal(recs, state[i], Democrat)
        && rep[i] == StateTotal(recs, state[i], Republican)
        && demSenate[i] == StateTotal(recs, state[i], DemSenate)
        && repSenate[i] == StateTotal(recs, state[i], RepSenate)
      ensures demOrRep == [] && pDem == [] && earlyVoting == []
    {
      var ss := States(recs);
      state := ss;
      index := seq(|ss|, i requires 0 <= i < |ss| => Key(ss[i]));
      voted := seq(|ss|, i requires 0 <= i < |ss| => StateTotal(recs, ss[i], Voted));
      registered := seq(|ss|, i requires 0 <= i < |ss| => StateTotal(recs, ss[i], Registered));
      dem := seq(|ss|, i requires 0 <= i < |ss| => StateTotal(recs, ss[i], Democrat));
      rep := seq(|ss|, i requires 0 <= i < |ss| => StateTotal(recs, ss[i], Republican));
      demSenate := seq(|ss|, i requires 0 <= i < |ss| => StateTotal(recs, ss[i], DemSenate));
      repSenate := seq(|ss|, i requires 0 <= i < |ss| => StateTotal(recs, ss[i], RepSenate));
      demOrRep, pDem, earlyVoting := [], [], [];
    }

    /** `reset_index(drop=True, inplace=True)` (line 36): the row labels
        become positions 0, 1, ...; every column is kept. */
    method ResetIndex()
      requires Valid()
      modifies this`index
      ensures Valid()
      ensures forall i :: 0 <= i < |state| ==> index[i] == Position(i)
    {
      var labels: seq<IndexLabel> := [];
      var i := 0;
      while i < |state|
        invariant 0 <= i <= |state|
        invariant |labels| == i
        invariant forall k :: 0 <= k < i ==> labels[k] == Position(k)
      {
        labels := labels + [Position(i)];
        i := i + 1;
      }
      index := labels;
    }

    /** `state_df['dem_or_rep'] = state_df[['dem', 'rep']].sum(axis=1)`
        (line 39). */
    method AddDemOrRep()
      requires Valid()
      modifies this`demOrRep
      ensures Valid()
      ensures |demOrRep| == |state|
      ensures forall i :: 0 <= i < |state| ==> demOrRep[i] == dem[i] + rep[i]
    {
      var column: seq<nat> := [];
      var i := 0;
      while i < |state|
        invariant 0 <= i <= |state|
        invariant |column| == i
        invariant forall k :: 0 <= k < i ==> column[k] == dem[k] + rep[k]
      {
        column := column + [dem[i] + rep[i]];
        i := i + 1;
      }
      demOrRep := column;
    }

    /** `state_df['p_dem'] = state_df['dem'] / state_df['dem_or_rep']`
        (line 42); a zero total gives the undefined share. */
    method AddPDem()
      requires Valid() && |demOrRep| == |state|
      modifies this`pDem
      ensures Valid()
      ensures |pDem| == |state|
      ensures forall i :: 0 <= i < |state| ==> pDem[i] == Share(dem[i], demOrRep[i])
    {
      var column: seq<Option<real>> := [];
      var i := 0;
      while i < |state|
        invariant 0 <= i <= |state|
        invariant |column| == i
        invariant forall k :: 0 <= k < i ==> column[k] == Share(dem[k], demOrRep[k])
      {
        var share := if demOrRep[i] == 0 then None else Some(dem[i] as real / demOrRep[i] as real);
        column := column + [share];
        i := i + 1;
      }
      pDem := column;
    }

    /** The label loop (lines 45-49): for each state in table order, the
        text of the distinct `earlyVoting` values of its records is
        appended to `state_early`, which then becomes a column. */
    method AddEarlyVoting(recs: seq<VotingRecord>)
      requires Valid()
      modifies this`earlyVoting
      ensures Valid()
      ensures |earlyVoting| == |state|
      ensures forall i :: 0 <= i < |state| ==> earlyVoting[i] == StateLabel(recs, state[i])
    {
      var stateEarly: seq<string> := [];
      var i := 0;
      while i < |state|
        invariant 0 <= i <= |state|
        invariant |stateEarly| == i
        invariant forall k :: 0 <= k < i ==> stateEarly[k] == StateLabel(recs, state[k])
      {
        var far := StateLabel(recs, state[i]);
        stateEarly := stateEarly + [far];
        i := i + 1;
      }
      earlyVoting := stateEarly;
    }
  }

  /** Lines 15-49 run in order: the finished table is the per-state table
      of the records, row for row. */
  method BuildStateFrame(recs: seq<VotingRecord>) returns (f: StateFrame)
    ensures fresh(f)
    ensures f.Complete()
    ensures f.Rows() == StateTable(recs)
    ensures forall i :: 0 <= i < |f.state| ==> f.index[i] == Position(i)
  {
    f := new StateFrame(recs);
    f.ResetIndex();
    f.AddDemOrRep();
    f.AddPDem();
    f.AddEarlyVoting(recs);
    ghost var rows := f.Rows();
    ghost var table := StateTable(recs);
    assert |rows| == |table|;
    forall i | 0 <= i < |rows| ensures rows[i] == table[i] {
      var s := f.state[i];
      assert table[i] == Summarize(recs, s);
    }
  }
}
