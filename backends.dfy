/** The backend registry: two ordered catalogs of backend tags (one for MIDI 1.0 byte-stream
    backends, one for MIDI 2.0 / UMP backends), fixed when the library is built, and the
    operations that visit them.  A backend tag is identified by its API enumerator; each
    catalog is a sequence of those enumerators in priority order.  A visit to a backend is
    recorded by its index in the catalog, because the visitor `f` is arbitrary caller code. */
module Backends {

  /** The API enumerators a backend tag can carry. */
  datatype Api =
    | Unspecified | CoreMidi | AlsaSeq | AlsaRaw | JackMidi | WindowsMM | WindowsUwp | WebMidi
    | Dummy | AlsaRawUmp | CoreMidiUmp | WindowsMidiServices

  /** The build-time features that decide which backends are compiled in.
      `jack` means the JACK feature is requested AND a JACK header is present;
      `alsaUmpHeader` and `winMidi2Header` are the optional headers the MIDI 2 entries need. */
  datatype Platform = Platform(
    alsa: bool, alsaUmpHeader: bool, coreAudio: bool, winmm: bool,
    winuwp: bool, winMidi2Header: bool, emscripten: bool, jack: bool)

  /** `make_tl(unused, args...)`: the leading placeholder lets every optional entry begin
      with a comma; it is dropped and the remaining tags keep their order. */
  function MakeTl(unused: int, args: seq<Api>): (tl: seq<Api>)
    ensures |tl| == |args|
    ensures forall i :: 0 <= i < |args| ==> tl[i] == args[i]
  {
    args
  }

  /** One `#if defined(FEATURE) , tag{}, ... #endif` block of a catalog: its tags are
      compiled in when the feature test holds on the platform. */
  datatype Block = Block(enabled: bool, tags: seq<Api>)

  /** The tags of the enabled blocks, in the order the blocks are written. */
  function Compiled(blocks: seq<Block>): (tags: seq<Api>)
    ensures forall i :: 0 <= i < |tags| ==> tags[i] in AllTags(blocks)
  {
    if blocks == [] then []
    else (if blocks[0].enabled then blocks[0].tags else []) + Compiled(blocks[1..])
  }

  /** The tags of every block, enabled or not. */
  function AllTags(blocks: seq<Block>): seq<Api> {
    if blocks == [] then [] else blocks[0].tags + AllTags(blocks[1..])
  }

  /** `xs` is `ys` with some entries left out: the entries of `xs` occur in `ys` in the same
      order. */
  predicate SubsequenceOf(xs: seq<Api>, ys: seq<Api>)
    decreases |ys|
  {
    xs == [] || (ys != [] && ((xs[0] == ys[0] && SubsequenceOf(xs[1..], ys[1..])) || SubsequenceOf(xs, ys[1..])))
  }

  lemma {:induction false} SubsequenceSkip(xs: seq<Api>, skipped: seq<Api>, ys: seq<Api>)
    requires SubsequenceOf(xs, ys)
    ensures SubsequenceOf(xs, skipped + ys)
    decreases |skipped|
  {
    if skipped != [] {
      var all := skipped + ys;
      assert all[1..] == skipped[1..] + ys;
      SubsequenceSkip(xs, skipped[1..], ys);
      assert SubsequenceOf(xs, all[1..]);
      assert all != [];
    } else {
      assert skipped + ys == ys;
    }
  }

  lemma {:induction false} SubsequenceKeep(xs: seq<Api>, kept: seq<Api>, ys: seq<Api>)
    requires SubsequenceOf(xs, ys)
    ensures SubsequenceOf(kept + xs, kept + ys)
    decreases |kept|
  {
    if kept != [] {
      var left, right := kept + xs, kept + ys;
      assert left[1..] == kept[1..] + xs && right[1..] == kept[1..] + ys;
      SubsequenceKeep(xs, kept[1..], ys);
      assert left[0] == right[0] && SubsequenceOf(left[1..], right[1..]);
      assert left != [] && right != [];
    } else {
      assert kept + xs == xs && kept + ys == ys;
    }
  }

  lemma {:induction false} SubsequenceAppend(xs: seq<Api>, ys: seq<Api>, a: Api)
    requires SubsequenceOf(xs, ys)
    ensures SubsequenceOf(xs + [a], ys + [a])
    decreases |ys|
  {
    var left, right := xs + [a], ys + [a];
    if xs == [] {
      assert [a][1..] == [];
      assert SubsequenceOf([], [a][1..]);
      assert SubsequenceOf([a], [a]);
      SubsequenceSkip([a], ys, [a]);
      assert left == [a];
    } else if xs[0] == ys[0] && SubsequenceOf(xs[1..], ys[1..]) {
      assert left[1..] == xs[1..] + [a] && right[1..] == ys[1..] + [a];
      SubsequenceAppend(xs[1..], ys[1..], a);
      assert left[0] == right[0] && SubsequenceOf(left[1..], right[1..]);
    } else {
      assert right[1..] == ys[1..] + [a];
      SubsequenceAppend(xs, ys[1..], a);
      assert SubsequenceOf(left, right[1..]);
    }
  }

  /** The compiled tags keep the order in which the blocks are written: they are the tags of
      every block with those of the disabled blocks left out. */
  lemma {:induction false} CompiledInOrder(blocks: seq<Block>)
    ensures SubsequenceOf(Compiled(blocks), AllTags(blocks))
    decreases |blocks|
  {
    if blocks != [] {
      CompiledInOrder(blocks[1..]);
      assert AllTags(blocks) == blocks[0].tags + AllTags(blocks[1..]);
      if blocks[0].enabled {
        assert Compiled(blocks) == blocks[0].tags + Compiled(blocks[1..]);
        SubsequenceKeep(Compiled(blocks[1..]), blocks[0].tags, AllTags(blocks[1..]));
      } else {
        assert Compiled(blocks) == [] + Compiled(blocks[1..]) == Compiled(blocks[1..]);
        SubsequenceSkip(Compiled(blocks[1..]), blocks[0].tags, AllTags(blocks[1..]));
      }
    }
  }

  /** Both catalogs list their entries in the priority order the source writes them in:
      each is the full tag list followed by the dummy backend, with the backends not
      compiled in left out. */
  lemma CatalogsInPriorityOrder(p: Platform)
    ensures SubsequenceOf(Midi1Backends(p), Midi1Tags + [Dummy])
    ensures SubsequenceOf(Midi2Backends(p), Midi2Tags + [Dummy])
  {
    CompiledInOrder(Midi1Blocks(p));
    SubsequenceAppend(Compiled(Midi1Blocks(p)), Midi1Tags, Dummy);
    CompiledInOrder(Midi2Blocks(p));
    SubsequenceAppend(Compiled(Midi2Blocks(p)), Midi2Tags, Dummy);
  }

  /** No tag occurs twice. */
  predicate Distinct(s: seq<Api>) {
    forall i, j :: 0 <= i < j < |s| ==> s[i] != s[j]
  }

  lemma DistinctAppend(a: seq<Api>, b: seq<Api>)
    requires Distinct(a) && Distinct(b)
    requires forall x :: x in a ==> x !in b
    ensures Distinct(a + b)
  {
    forall i, j | 0 <= i < j < |a + b| ensures (a + b)[i] != (a + b)[j] {
      if j >= |a| && i < |a| {
        assert (a + b)[i] in a && (a + b)[j] in b;
      }
    }
  }

  /** A tag is compiled in exactly when some enabled block lists it. */
  lemma {:induction false} CompiledMembers(blocks: seq<Block>, a: Api)
    ensures a in Compiled(blocks) <==>
              exists i :: 0 <= i < |blocks| && blocks[i].enabled && a in blocks[i].tags
  {
    if blocks != [] {
      CompiledMembers(blocks[1..], a);
      if a in Compiled(blocks[1..]) {
        var i :| 0 <= i < |blocks| - 1 && blocks[1..][i].enabled && a in blocks[1..][i].tags;
        assert blocks[i + 1] == blocks[1..][i];
      }
      if exists i :: 0 <= i < |blocks| && blocks[i].enabled && a in blocks[i].tags {
        var i :| 0 <= i < |blocks| && blocks[i].enabled && a in blocks[i].tags;
        if i > 0 {
          assert blocks[1..][i - 1] == blocks[i];
        }
      }
    }
  }

  /** Leaving blocks out cannot create a duplicate: if all the tags that could be compiled
      in are distinct, so are those that are. */
  lemma {:induction false} CompiledDistinct(blocks: seq<Block>)
    requires Distinct(AllTags(blocks))
    ensures Distinct(Compiled(blocks))
  {
    if blocks != [] {
      var head, rest := blocks[0].tags, AllTags(blocks[1..]);
      assert AllTags(blocks) == head + rest;
      assert Distinct(head) by {
        forall i, j | 0 <= i < j < |head| ensures head[i] != head[j] {
          assert (head + rest)[i] == head[i] && (head + rest)[j] == head[j];
        }
      }
      assert Distinct(rest) by {
        forall i, j | 0 <= i < j < |rest| ensures rest[i] != rest[j] {
          assert (head + rest)[|head| + i] == rest[i] && (head + rest)[|head| + j] == rest[j];
        }
      }
      CompiledDistinct(blocks[1..]);
      var first := if blocks[0].enabled then head else [];
      forall x | x in first ensures x !in Compiled(blocks[1..]) {
        var i :| 0 <= i < |head| && head[i] == x;
        assert x !in rest by {
          forall j | 0 <= j < |rest| ensures rest[j] != x {
            assert (head + rest)[i] == x && (head + rest)[|head| + j] == rest[j];
          }
        }
      }
      DistinctAppend(first, Compiled(blocks[1..]));
    }
  }

  /** The optional MIDI 1.0 blocks, in the order the source lists them. */
  function Midi1Blocks(p: Platform): (blocks: seq<Block>)
    ensures AllTags(blocks) == Midi1Tags
  {
    var blocks := 
    [ Block(p.alsa, [AlsaSeq, AlsaRaw]),
      Block(p.coreAudio, [CoreMidi]),
      Block(p.winmm, [WindowsMM]),
      Block(p.winuwp, [WindowsUwp]),
      Block(p.emscripten, [WebMidi]),
      Block(p.jack, [JackMidi]) ];
    assert AllTags(blocks[6..]) == [];
    assert AllTags(blocks[5..]) == [JackMidi] by { assert blocks[5..][1..] == blocks[6..]; }
    assert AllTags(blocks[4..]) == [WebMidi, JackMidi] by { assert blocks[4..][1..] == blocks[5..]; }
    assert AllTags(blocks[3..]) == Midi1Tags[4..] by { assert blocks[3..][1..] == blocks[4..]; }
    assert AllTags(blocks[2..]) == Midi1Tags[3..] by { assert blocks[2..][1..] == blocks[3..]; }
    assert AllTags(blocks[1..]) == Midi1Tags[2..] by { assert blocks[1..][1..] == blocks[2..]; }
    blocks
  }

  /** The MIDI 1.0 catalog, in auto-probe priority order. */
  function Midi1Backends(p: Platform): (cat: seq<Api>)
    ensures |cat| >= 1 && cat[|cat| - 1] == Dummy
    ensures forall i :: 0 <= i < |cat| - 1 ==> cat[i] != Dummy
    ensures forall a :: a in cat && a != Dummy ==> a in Midi1Tags
    ensures p.alsa ==> cat[0] == AlsaSeq && cat[1] == AlsaRaw
  {
    var opt := Compiled(Midi1Blocks(p));
    assert p.alsa ==> opt[..2] == [AlsaSeq, AlsaRaw];
    MakeTl(0, opt + [Dummy])
  }

  /** Every tag the MIDI 1.0 catalog can hold besides the dummy one. */
  const Midi1Tags: seq<Api> := [AlsaSeq, AlsaRaw, CoreMidi, WindowsMM, WindowsUwp, WebMidi, JackMidi]

  /** Every tag occurs at most once in the MIDI 1.0 catalog, so the short-circuit lookup
      never hides a second backend with the same tag. */
  lemma Midi1Distinct(p: Platform)
    ensures Distinct(Midi1Backends(p))
  {
    var blocks := Midi1Blocks(p);
    CompiledDistinct(blocks);
    DistinctAppend(Compiled(blocks), [Dummy]);
  }

  /** The optional MIDI 2.0 blocks, in the order the source lists them. */
  function Midi2Blocks(p: Platform): (blocks: seq<Block>)
    ensures AllTags(blocks) == Midi2Tags
  {
    var blocks := 
    [ Block(p.alsa && p.alsaUmpHeader, [AlsaRawUmp]),
      Block(p.coreAudio, [CoreMidiUmp]),
      Block(p.winuwp && p.winMidi2Header, [WindowsMidiServices]) ];
    assert AllTags(blocks[3..]) == [];
    assert AllTags(blocks[2..]) == [WindowsMidiServices] by { assert blocks[2..][1..] == blocks[3..]; }
    assert AllTags(blocks[1..]) == Midi2Tags[1..] by { assert blocks[1..][1..] == blocks[2..]; }
    blocks
  }

  /** Every tag the MIDI 2.0 catalog can hold besides the dummy one. */
  const Midi2Tags: seq<Api> := [AlsaRawUmp, CoreMidiUmp, WindowsMidiServices]

  /** The MIDI 2.0 / UMP catalog, in auto-probe priority order. */
  function Midi2Backends(p: Platform): (cat: seq<Api>)
    ensures |cat| >= 1 && cat[|cat| - 1] == Dummy
    ensures forall i :: 0 <= i < |cat| - 1 ==> cat[i] != Dummy
    ensures forall a :: a in cat && a != Dummy ==> a in Midi2Tags
    ensures p.alsa && p.alsaUmpHeader ==> cat[0] == AlsaRawUmp
  {
    var opt := Compiled(Midi2Blocks(p));
    MakeTl(0, opt + [Dummy])
  }

  /** Every tag occurs at most once in the MIDI 2.0 catalog. */
  lemma Midi2Distinct(p: Platform)
    ensures Distinct(Midi2Backends(p))
  {
    var blocks := Midi2Blocks(p);
    CompiledDistinct(blocks);
    DistinctAppend(Compiled(blocks), [Dummy]);
  }

  /** A tag is in a catalog exactly when it is the dummy tag or an enabled block lists it. */
  lemma CatalogMembers(p: Platform, a: Api)
    ensures a in Midi1Backends(p) <==>
              a == Dummy || exists i :: 0 <= i < |Midi1Blocks(p)| && Midi1Blocks(p)[i].enabled && a in Midi1Blocks(p)[i].tags
    ensures a in Midi2Backends(p) <==>
              a == Dummy || exists i :: 0 <= i < |Midi2Blocks(p)| && Midi2Blocks(p)[i].enabled && a in Midi2Blocks(p)[i].tags
  {
    CompiledMembers(Midi1Blocks(p), a);
    CompiledMembers(Midi2Blocks(p), a);
    assert Midi1Backends(p) == Compiled(Midi1Blocks(p)) + [Dummy];
    assert Midi2Backends(p) == Compiled(Midi2Blocks(p)) + [Dummy];
  }

  /** `for_all_backends(f)`: the comma fold `(f(x), ...)` over the catalog.  The result is
      the sequence of catalog indices `f` is applied to, in call order. */
  function ForAllBackends(cat: seq<Api>): (visited: seq<nat>)
    ensures |visited| == |cat|
    ensures forall k :: 0 <= k < |cat| ==> visited[k] == k
  {
    CommaFold(cat, 0)
  }

  /** The comma fold from entry `from` on: call `f` on it, then fold the rest. */
  function CommaFold(cat: seq<Api>, from: nat): (visited: seq<nat>)
    requires from <= |cat|
    ensures |visited| == |cat| - from
    ensures forall k :: 0 <= k < |visited| ==> visited[k] == from + k
    decreases |cat| - from
  {
    if from == |cat| then [] else [from] + CommaFold(cat, from + 1)
  }

  /** `for_backend(api, f)`: the short-circuit fold `((is_api(b, api) && (f(b), true)) || ...)`.
      The result is the list of catalog indices `f` is applied to. */
  function ForBackend(cat: seq<Api>, api: Api): (visited: seq<nat>)
    ensures |visited| <= 1
    ensures visited == [] <==> api !in cat
    ensures forall k :: k in visited ==> k < |cat| && cat[k] == api
    ensures forall k, j :: k in visited && 0 <= j < k ==> cat[j] != api
  {
    OrFold(cat, api, 0)
  }

  /** The `||` fold from entry `from` on: stop at the first entry whose tag is `api`. */
  function OrFold(cat: seq<Api>, api: Api, from: nat): (visited: seq<nat>)
    requires from <= |cat|
    ensures |visited| <= 1
    ensures visited == [] <==> api !in cat[from..]
    ensures forall k :: k in visited ==> from <= k < |cat| && cat[k] == api
    ensures forall k, j :: k in visited && from <= j < k ==> cat[j] != api
    decreases |cat| - from
  {
    if from == |cat| then []
    else if cat[from] == api then [from]
    else OrFold(cat, api, from + 1)
  }

  datatype Family = Midi1 | Midi2

  /** A visit made through the combined view: which catalog, and which index in it. */
  datatype Visit = Visit(family: Family, index: nat)

  function Tagged(family: Family, indices: seq<nat>): (visits: seq<Visit>)
    ensures |visits| == |indices|
    ensures forall k :: 0 <= k < |indices| ==> visits[k] == Visit(family, indices[k])
  {
    seq(|indices|, k requires 0 <= k < |indices| => Visit(family, indices[k]))
  }

  /** `midi_any::for_all_backends(f)`: every MIDI 1.0 entry, then every MIDI 2.0 entry. */
  function AnyForAllBackends(p: Platform): (visits: seq<Visit>)
    ensures |visits| == |Midi1Backends(p)| + |Midi2Backends(p)|
    ensures forall k :: 0 <= k < |Midi1Backends(p)| ==> visits[k] == Visit(Midi1, k)
    ensures forall k :: |Midi1Backends(p)| <= k < |visits| ==>
              visits[k] == Visit(Midi2, k - |Midi1Backends(p)|)
  {
    ChainAll(Midi1Backends(p), Midi2Backends(p))
  }

  /** The combined sweep over two catalogs. */
  function ChainAll(c1: seq<Api>, c2: seq<Api>): (visits: seq<Visit>)
    ensures |visits| == |c1| + |c2|
    ensures forall k :: 0 <= k < |c1| ==> visits[k] == Visit(Midi1, k)
    ensures forall k :: |c1| <= k < |visits| ==> visits[k] == Visit(Midi2, k - |c1|)
  {
    Tagged(Midi1, ForAllBackends(c1)) + Tagged(Midi2, ForAllBackends(c2))
  }

  /** `midi_any::for_backend(api, f)`: the MIDI 1.0 lookup, then the MIDI 2.0 lookup.
      Each lookup calls `f` on the first matching entry of its own catalog, if any. */
  function AnyForBackend(p: Platform, api: Api): (visits: seq<Visit>)
    ensures |visits| == (if api in Midi1Backends(p) then 1 else 0) + (if api in Midi2Backends(p) then 1 else 0)
    ensures var m1 := Midi1Backends(p);
      forall k :: 0 <= k < |visits| && visits[k].family == Midi1 ==>
              && visits[k].index < |m1| && m1[visits[k].index] == api
              && forall j :: 0 <= j < visits[k].index ==> m1[j] != api
    ensures var m2 := Midi2Backends(p);
      forall k :: 0 <= k < |visits| && visits[k].family == Midi2 ==>
              && visits[k].index < |m2| && m2[visits[k].index] == api
              && forall j :: 0 <= j < visits[k].index ==> m2[j] != api
    ensures forall k, j :: 0 <= k < j < |visits| ==> visits[k].family == Midi1 && visits[j].family == Midi2
  {
    ChainLookup(Midi1Backends(p), Midi2Backends(p), api)
  }

  /** The combined lookup over two catalogs. */
  function ChainLookup(c1: seq<Api>, c2: seq<Api>, api: Api): (visits: seq<Visit>)
    ensures |visits| == (if api in c1 then 1 else 0) + (if api in c2 then 1 else 0)
    ensures forall k :: 0 <= k < |visits| && visits[k].family == Midi1 ==>
              && visits[k].index < |c1| && c1[visits[k].index] == api
              && forall j :: 0 <= j < visits[k].index ==> c1[j] != api
    ensures forall k :: 0 <= k < |visits| && visits[k].family == Midi2 ==>
              && visits[k].index < |c2| && c2[visits[k].index] == api
              && forall j :: 0 <= j < visits[k].index ==> c2[j] != api
    ensures forall k, j :: 0 <= k < j < |visits| ==> visits[k].family == Midi1 && visits[j].family == Midi2
  {
    var v1, v2 := ForBackend(c1, api), ForBackend(c2, api);
    var visits := Tagged(Midi1, v1) + Tagged(Midi2, v2);
    assert forall k :: 0 <= k < |v1| ==> v1[k] in v1;
    assert forall k :: 0 <= k < |v2| ==> v2[k] in v2;
    assert v1 != [] ==> visits[0] == Visit(Midi1, v1[0]);
    assert v2 != [] ==> visits[|v1|] == Visit(Midi2, v2[0]);
    visits
  }

  /** The registry is never empty: enumerating every backend visits at least the two
      fallback entries, and both of them are the dummy backend. */
  lemma RegistryNeverEmpty(p: Platform)
    ensures |AnyForAllBackends(p)| >= 2
    ensures Visit(Midi1, |Midi1Backends(p)| - 1) in AnyForAllBackends(p)
    ensures Midi1Backends(p)[|Midi1Backends(p)| - 1] == Dummy
    ensures Visit(Midi2, |Midi2Backends(p)| - 1) in AnyForAllBackends(p)
    ensures Midi2Backends(p)[|Midi2Backends(p)| - 1] == Dummy
  {
    var visits := AnyForAllBackends(p);
    var n1, n2 := |Midi1Backends(p)|, |Midi2Backends(p)|;
    assert visits[n1 - 1] == Visit(Midi1, n1 - 1);
    assert visits[n1 + n2 - 1] == Visit(Midi2, n2 - 1);
  }

  /** Only the dummy backend sits in both catalogs, so the combined lookup calls `f` twice
      for the dummy tag and at most once for any other tag. */
  lemma AnyForBackendCalls(p: Platform, api: Api)
    ensures |AnyForBackend(p, api)| == 2 <==> api == Dummy
    ensures api != Dummy ==> |AnyForBackend(p, api)| <= 1
  {
    var m1, m2 := Midi1Backends(p), Midi2Backends(p);
    assert m1[|m1| - 1] == Dummy && m2[|m2| - 1] == Dummy;
    OnlyDummyShared(m1, m2, api);
  }

  lemma OnlyDummyShared(m1: seq<Api>, m2: seq<Api>, api: Api)
    requires Dummy in m1 && Dummy in m2
    requires forall a :: a in m1 && a != Dummy ==> a in Midi1Tags
    requires forall a :: a in m2 && a != Dummy ==> a in Midi2Tags
    ensures api in m1 && api in m2 <==> api == Dummy
  {
  }
}
