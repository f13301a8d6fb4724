/** The calls of a completed chat stream, one for each index that occurs
    (lib/proxy/codex-transform.js 226-259, 343-363). */
module ChatCalls {
  import opened ChatTranslator
  import opened ChatOutput
  import Strings = Text

  /** A fragment of the call with this index; a missing index counts as 0. */
  predicate Carries(f: Fragment, index: int) {
    match f.index
    case Some(i) => i == index
    case None => index == 0
  }

  /** The fragments of one call, in order. */
  function Select(fs: seq<Fragment>, index: int): seq<Fragment> {
    if fs == [] then []
    else Select(fs[..|fs| - 1], index) + if Carries(fs[|fs| - 1], index) then [fs[|fs| - 1]] else []
  }

  function JoinedArguments(fs: seq<Fragment>): string {
    if fs == [] then "" else JoinedArguments(fs[..|fs| - 1]) + fs[|fs| - 1].arguments
  }

  /** The first name that is not empty. */
  function FirstName(fs: seq<Fragment>): string {
    if fs == [] then "" else if fs[0].name != "" then fs[0].name else FirstName(fs[1..])
  }

  lemma {:induction false} FirstNameAppend(fs: seq<Fragment>, f: Fragment)
    ensures FirstName(fs + [f]) == if FirstName(fs) != "" then FirstName(fs) else f.name
    decreases |fs|
  {
    if fs == [] {
      assert [f][1..] == [];
    } else {
      assert (fs + [f])[1..] == fs[1..] + [f];
      FirstNameAppend(fs[1..], f);
    }
  }

  lemma SelectLast(fs: seq<Fragment>, index: int)
    requires fs != []
    ensures var n := |fs| - 1;
            Select(fs, index) == if Carries(fs[n], index) then Select(fs[..n], index) + [fs[n]] else Select(fs[..n], index)
  {
  }

  lemma {:induction false} SelectArguments(fs: seq<Fragment>, index: int)
    ensures ArgumentsFor(fs, index) == JoinedArguments(Select(fs, index))
    decreases |fs|
  {
    if fs != [] {
      var n := |fs| - 1;
      var before := Select(fs[..n], index);
      SelectArguments(fs[..n], index);
      SelectLast(fs, index);
      assert (before + [fs[n]])[..|before|] == before;
      assert ArgumentsFor(fs[..n], index) + "" == ArgumentsFor(fs[..n], index);
    }
  }

  lemma {:induction false} SelectName(fs: seq<Fragment>, index: int)
    ensures NameFor(fs, index) == FirstName(Select(fs, index))
    decreases |fs|
  {
    if fs != [] {
      var n := |fs| - 1;
      SelectName(fs[..n], index);
      SelectLast(fs, index);
      FirstNameAppend(Select(fs[..n], index), fs[n]);
    }
  }

  lemma {:induction false} SelectOccurs(fs: seq<Fragment>, index: int)
    ensures index in Keys(fs) <==> Select(fs, index) != []
    ensures index in Keys(fs) <==> exists f :: f in fs && Carries(f, index)
    decreases |fs|
  {
    if fs != [] {
      var n := |fs| - 1;
      SelectOccurs(fs[..n], index);
      SelectLast(fs, index);
      assert forall f :: f in fs <==> f in fs[..n] || f == fs[n];
    }
  }

  function FirstId(fs: seq<Fragment>): string {
    if fs == [] then "" else fs[0].id
  }

  lemma FirstIdAppend(fs: seq<Fragment>, f: Fragment)
    ensures FirstId(fs + [f]) == if fs == [] then f.id else FirstId(fs)
  {
  }

  lemma {:induction false} SelectFirst(fs: seq<Fragment>, index: int)
    ensures IdFor(fs, index) == FirstId(Select(fs, index))
    decreases |fs|
  {
    if fs != [] {
      var init, last := fs[..|fs| - 1], fs[|fs| - 1];
      SelectFirst(init, index);
      SelectLast(fs, index);
      SelectOccurs(init, index);
      FirstIdAppend(Select(init, index), last);
      assert fs == init + [last];
      IdForAppend(init, last, index);
    }
  }

  /** The call items of a completed output: all but the message. */
  function CallItems(output: seq<Item>): seq<Item> {
    if output != [] && output[0].Message? then output[1..] else output
  }

  /** The call with this index, opened as the k-th: all its arguments in order, its first name, and its
      first fragment's id or, when that has none, one made from k. */
  ghost predicate IsCall(item: Item, fs: seq<Fragment>, index: int, k: nat) {
    && Select(fs, index) != []
    && item.Call? && item.arguments == JoinedArguments(Select(fs, index)) && item.name == FirstName(Select(fs, index))
    && item.id == if FirstId(Select(fs, index)) != "" then FirstId(Select(fs, index)) else "fc_" + Strings.Decimal(k)
  }

  lemma OutputCalls(lines: seq<Line>)
    ensures CallItems(Output(lines)) == Calls(Fragments(lines))
  {
    var calls := Calls(Fragments(lines));
    if HasText(lines) {
      assert ([Message([ChatOutput.Text(lines)])] + calls)[1..] == calls;
    } else {
      assert [] + calls == calls;
    }
  }

  lemma EachIsCall(fs: seq<Fragment>, k: nat)
    requires k < |Keys(fs)|
    ensures IsCall(Calls(fs)[k], fs, Keys(fs)[k], k)
  {
    SelectArguments(fs, Keys(fs)[k]);
    SelectName(fs, Keys(fs)[k]);
    SelectFirst(fs, Keys(fs)[k]);
    SelectOccurs(fs, Keys(fs)[k]);
  }

  /** For every ordered stream the completed output has one call for each index that occurs, and no
      other, in the order `indexes`. */
  lemma {:induction false} OneCallPerIndex(lines: seq<Line>) returns (indexes: seq<int>)
    requires !StageOf(lines).Disordered?
    ensures var h := End(PushLines(INITIAL, lines), None).trace; var fs := Fragments(lines);
            && h.Snoc? && h.last.Completed? && |CallItems(h.last.output)| == |indexes|
            && (forall i, j | 0 <= i < j < |indexes| :: indexes[i] != indexes[j])
            && (forall index :: index in indexes <==> exists f :: f in fs && Carries(f, index))
            && (forall k | 0 <= k < |indexes| :: IsCall(CallItems(h.last.output)[k], fs, indexes[k], k))
  {
    var fs := Fragments(lines);
    OrderedOutput(lines);
    OutputCalls(lines);
    KeysDistinct(fs);
    indexes := Keys(fs);
    forall index ensures index in indexes <==> exists f :: f in fs && Carries(f, index) {
      SelectOccurs(fs, index);
    }
    forall k | 0 <= k < |indexes| ensures IsCall(CallItems(Output(lines))[k], fs, indexes[k], k) {
      EachIsCall(fs, k);
    }
  }

  /** Two calls that were sent no id have different ones all the same. */
  lemma MadeUpIdsDiffer(a: Item, b: Item, fs: seq<Fragment>, indexes: seq<int>, i: nat, j: nat)
    requires i < j < |indexes| && IsCall(a, fs, indexes[i], i) && IsCall(b, fs, indexes[j], j)
    requires FirstId(Select(fs, indexes[i])) == "" && FirstId(Select(fs, indexes[j])) == ""
    ensures a.id != b.id
  {
    if a.id == b.id {
      assert a.id[3..] == Strings.Decimal(i) && b.id[3..] == Strings.Decimal(j);
      Strings.DecimalInjective(i, j);
    }
  }
}
