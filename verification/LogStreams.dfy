/** Opening the log streams of a pod's containers from a worklist that grows while it is walked. */
module LogStreams {

  datatype Container = Container(name: string, image: string)

  /** The containers to stream, in pod order; no names select all. */
  function Selected(all: seq<Container>, names: seq<string>): seq<Container> {
    if all == [] then []
    else
      var n := |all| - 1;
      Selected(all[..n], names) + if names == [] || all[n].name in names then [all[n]] else []
  }

  function Successes(outcomes: seq<bool>): nat {
    if outcomes == [] then 0
    else Successes(outcomes[..|outcomes| - 1]) + if outcomes[|outcomes| - 1] then 1 else 0
  }

  lemma {:induction false} SuccessesGrow(outcomes: seq<bool>, i: nat)
    requires i <= |outcomes|
    ensures Successes(outcomes[..i]) <= Successes(outcomes)
  {
    if i < |outcomes| {
      assert outcomes[..|outcomes| - 1][..i] == outcomes[..i];
      SuccessesGrow(outcomes[..|outcomes| - 1], i);
    } else {
      assert outcomes[..i] == outcomes;
    }
  }

  class Streamer {
    var list: seq<Container>
    var cursor: nat
    var streams: seq<Container>
    var waiting: nat
    ghost var wanted: seq<Container>

    /** Streams opened and containers from the cursor on are together the selected containers. */
    ghost predicate Valid()
      reads this
    {
      && cursor <= |list|
      && multiset(streams) + multiset(list[cursor..]) == multiset(wanted)
      && waiting == |streams|
    }

    constructor (containers: seq<Container>, initContainers: seq<Container>, names: seq<string>)
      ensures Valid() && cursor == 0 && streams == []
      ensures list == wanted == Selected(containers + initContainers, names)
    {
      cursor, streams, waiting := 0, [], 0;
      list := [];
      new;
      var all := containers + initContainers;
      for i := 0 to |all|
        invariant list == Selected(all[..i], names)
        invariant cursor == 0 && streams == [] && waiting == 0
      {
        assert all[..i + 1][..i] == all[..i];
        if |names| == 0 || all[i].name in names {
          list := list + [all[i]];
        }
      }
      assert all[..|all|] == all;
      wanted := list;
      assert list[0..] == list;
    }

    /** One turn: a failed opening puts the container at the end of the list. */
    method Visit(ok: bool)
      requires Valid() && cursor < |list|
      modifies this
      ensures Valid() && wanted == old(wanted) && cursor == old(cursor) + 1
      ensures var c := old(list)[old(cursor)];
              if ok then streams == old(streams) + [c] && list == old(list)
              else streams == old(streams) && list == old(list) + [c]
    {
      var c := list[cursor];
      assert list[cursor..] == [c] + list[cursor + 1..];
      if ok {
        streams := streams + [c];
        waiting := waiting + 1;
      } else {
        assert (list + [c])[cursor + 1..] == list[cursor + 1..] + [c];
        list := list + [c];
      }
      cursor := cursor + 1;
    }

    /** Walks the list while openings succeed or fail as given; `used` counts the openings tried.
        The walk ends exactly when as many openings succeed as containers were selected. */
    method Walk(outcomes: seq<bool>) returns (ended: bool, used: nat)
      requires Valid() && cursor == 0 && streams == [] && list == wanted
      modifies this
      ensures Valid() && wanted == old(wanted) && used <= |outcomes|
      ensures ended <==> Successes(outcomes) >= |wanted|
      ensures ended ==>
                && multiset(streams) == multiset(wanted)
                && waiting == |wanted|
                && Successes(outcomes[..used]) == |wanted|
      ensures |list| == |wanted| + used - |streams| && |streams| == Successes(outcomes[..used])
    {
      used := 0;
      while cursor < |list| && used < |outcomes|
        invariant Valid() && wanted == old(wanted)
        invariant cursor == used <= |outcomes|
        invariant |streams| == Successes(outcomes[..used])
        invariant |list| == |wanted| + used - |streams|
      {
        assert outcomes[..used + 1][..used] == outcomes[..used];
        Visit(outcomes[used]);
        used := used + 1;
      }
      ended := cursor == |list|;
      assert outcomes[..|outcomes|] == outcomes;
      SuccessesGrow(outcomes, used);
      if ended {
        assert list[cursor..] == [];
      }
    }
  }

  /** Selected are the containers of the pod that are named, or all if no names are given. */
  lemma {:induction false} SelectedIff(all: seq<Container>, names: seq<string>, c: Container)
    ensures c in Selected(all, names) <==> c in all && (names == [] || c.name in names)
    ensures names == [] ==> Selected(all, names) == all
  {
    if all != [] {
      SelectedIff(all[..|all| - 1], names, c);
      assert all == all[..|all| - 1] + [all[|all| - 1]];
    }
  }

  lemma {:induction false} SelectedAppends(a: seq<Container>, b: seq<Container>, names: seq<string>)
    ensures Selected(a + b, names) == Selected(a, names) + Selected(b, names)
  {
    if b == [] {
      assert a + b == a;
    } else {
      var n := |b| - 1;
      SelectedAppends(a, b[..n], names);
      assert (a + b)[..|a + b| - 1] == a + b[..n] && (a + b)[|a + b| - 1] == b[n];
    }
  }

  /** Concretely: one of three containers by name. */
  lemma SelectedExample()
    ensures var a, b, c := Container("a", "1"), Container("b", "2"), Container("c", "3");
            Selected([a, b, c], ["b"]) == [b]
  {
    var a, b, c := Container("a", "1"), Container("b", "2"), Container("c", "3");
    SelectedAppends([a], [b], ["b"]);
    SelectedAppends([a] + [b], [c], ["b"]);
    assert [a] + [b] + [c] == [a, b, c];
    assert [a][..0] == [] && [b][..0] == [] && [c][..0] == [];
  }
}
