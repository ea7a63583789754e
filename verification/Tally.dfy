/** How many entries of a table have a property, as the table changes one entry at a time. */
module Tally {
  import B = Bipartite

  ghost function Those<R>(rows: map<int, R>, p: R -> bool): set<int> {
    set l | l in rows && p(rows[l])
  }

  ghost function Number<R>(rows: map<int, R>, p: R -> bool): nat {
    |Those(rows, p)|
  }

  ghost function One(b: bool): nat {
    if b then 1 else 0
  }

  lemma Changed<R>(rows: map<int, R>, l: int, row: R, p: R -> bool)
    ensures Number(rows[l := row], p) == Number(rows, p) - One(l in rows && p(rows[l])) + One(p(row))
  {
    var after, others := rows[l := row], Those(rows, p) - {l};
    forall k | k != l
      ensures k in Those(after, p) <==> k in others
    {
    }
    assert l in after && after[l] == row;
    assert Those(after, p) == if p(row) then others + {l} else others;
    assert Those(rows, p) == if l in rows && p(rows[l]) then others + {l} else others;
  }

  lemma Removed<R>(rows: map<int, R>, l: int, p: R -> bool)
    ensures Number(rows - {l}, p) == Number(rows, p) - One(l in rows && p(rows[l]))
  {
    var after, others := rows - {l}, Those(rows, p) - {l};
    forall k | k != l
      ensures k in Those(after, p) <==> k in others
    {
    }
    assert Those(after, p) == others;
    assert Those(rows, p) == if l in rows && p(rows[l]) then others + {l} else others;
  }

  lemma Fewer<R>(rows: map<int, R>, p: R -> bool, q: R -> bool)
    requires forall l {:trigger rows[l]} :: l in rows && p(rows[l]) ==> q(rows[l])
    ensures Number(rows, p) <= Number(rows, q)
  {
    forall l | l in Those(rows, p)
      ensures l in Those(rows, q)
    {
      assert p(rows[l]);
    }
    B.SubsetSize(Those(rows, p), Those(rows, q));
  }
}
