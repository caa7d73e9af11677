// The parts of the main window's state that its handlers update with
// plain list logic: cutting the loaded signal, filing an extracted sound
// under a class slot, and writing or reading a net as text.

module Gui {
  import opened Numeric
  import opened Initializer
  import opened Trainer
  import opened NetFile

  /** A Python index into a sequence of length n: a negative index counts
      from the end, and the result is clamped to [0, n] as slicing does. */
  function SliceIndex(i: int, n: nat): (r: nat)
    ensures r <= n
    ensures 0 <= i <= n ==> r == i
    ensures i < 0 && 0 <= i + n ==> r == i + n
    ensures i > n ==> r == n
    ensures i + n < 0 ==> r == 0
  {
    var j := if i < 0 then i + n else i;
    if j < 0 then 0 else if j > n then n else j
  }

  /** s[lo:hi] with Python's slicing rules. */
  function Slice(s: seq<real>, lo: int, hi: int): (r: seq<real>)
    ensures 0 <= lo <= hi <= |s| ==> r == s[lo..hi]
  {
    var a := SliceIndex(lo, |s|);
    var b := SliceIndex(hi, |s|);
    if a < b then s[a..b] else []
  }

  /** The text of a limit box: empty, a time already scaled to a sample
      index int(float(text) * Fs), or text float() rejects. */
  datatype LimitText = Blank | Samples(index: int) | Unreadable

  /** The clamping of cutSignal: both limits pulled into the signal and the
      upper one pushed past the lower one. */
  function CutLimits(size: nat, inf: int, sup: int): (r: (int, int))
    ensures size >= 1 ==> 0 <= r.0 < r.1 <= size
    ensures 0 <= inf < sup <= size ==> r == (inf, sup)
    ensures size == 0 ==> r == (-1, 0)
  {
    var lo := MinInt(MaxInt(inf, 0), size - 1);
    var hi := MinInt(MaxInt(sup, 1), size);
    if lo >= hi then (lo, lo + 1) else (lo, hi)
  }

  function MinInt(a: int, b: int): int { if a <= b then a else b }
  function MaxInt(a: int, b: int): int { if a >= b then a else b }

  /** The part of the signal kept by a band cut, and by an outer cut. */
  function Cut(voz: seq<real>, isBand: bool, lo: int, hi: int): seq<real>
  {
    if isBand then Slice(voz, lo, hi) else Slice(voz, 0, lo) + Slice(voz, hi, |voz|)
  }

  /** The samples before, inside and after the clamped limits rebuild the
      signal; the band cut keeps the middle part, of at least one sample,
      and the outer cut keeps the rest. An empty signal stays empty. */
  lemma {:induction false} CutPartition(voz: seq<real>, inf: int, sup: int)
    ensures var (lo, hi) := CutLimits(|voz|, inf, sup);
      Slice(voz, 0, lo) + Cut(voz, true, lo, hi) + Slice(voz, hi, |voz|) == voz
    ensures var (lo, hi) := CutLimits(|voz|, inf, sup);
      |voz| > 0 ==> |Cut(voz, true, lo, hi)| == hi - lo >= 1
    ensures var (lo, hi) := CutLimits(|voz|, inf, sup);
      |Cut(voz, false, lo, hi)| == |voz| - |Cut(voz, true, lo, hi)|
  {
    var (lo, hi) := CutLimits(|voz|, inf, sup);
    if |voz| > 0 {
      assert voz[..lo] + voz[lo..hi] + voz[hi..] == voz;
    }
  }

  /** The text a free class slot shows. */
  const FreeSlot: string := "..."

  /** Index of the first slot showing `name`, if any. */
  function FindSlot(names: seq<string>, name: string, from: nat): (r: Option<nat>)
    requires from <= |names|
    ensures r.Some? ==> from <= r.value < |names| && names[r.value] == name
    ensures r.Some? ==> forall i :: from <= i < r.value ==> names[i] != name
    ensures r.None? <==> forall i :: from <= i < |names| ==> names[i] != name
    decreases |names| - from
  {
    if from == |names| then None
    else if names[from] == name then Some(from)
    else FindSlot(names, name, from + 1)
  }

  /** Every pattern's label names a slot. */
  predicate LabelsInSlots(ps: seq<Pattern>, slots: nat)
  {
    forall p :: 0 <= p < |ps| ==> ps[p].cls < slots
  }

  /** No class name other than the free marker shows in two slots. */
  predicate DistinctNames(names: seq<string>)
  {
    forall i, j :: 0 <= i < j < |names| && names[i] != FreeSlot ==> names[i] != names[j]
  }

  /** The rows of an extracted sound as patterns [tono, coeffs..., ind]. */
  function Block(param: seq<seq<real>>, tono: real, ind: nat): (b: seq<Pattern>)
    ensures |b| == |param|
    ensures forall r :: 0 <= r < |b| ==> b[r].features == [tono] + param[r] && b[r].cls == ind
  {
    seq(|param|, r requires 0 <= r < |param| => Pattern([tono] + param[r], ind))
  }

  /** The slot names after filing a sound under `name`: the slot that
      already shows the name, else the first free slot renamed, else none. */
  function ClaimSlot(names: seq<string>, name: string): (r: (Option<nat>, seq<string>))
    ensures |r.1| == |names|
    ensures r.0.Some? ==> r.0.value < |names| && r.1[r.0.value] == name
    ensures r.0.None? <==> (forall i :: 0 <= i < |names| ==> names[i] != name && names[i] != FreeSlot)
  {
    match FindSlot(names, name, 0)
    case Some(i) => (Some(i), names)
    case None =>
      match FindSlot(names, FreeSlot, 0)
      case Some(i) => (Some(i), names[i := name])
      case None => (None, names)
  }

  /** Filing a sound never gives one name two slots, and only a free slot
      is ever renamed. */
  lemma ClaimKeepsNamesDistinct(names: seq<string>, name: string)
    requires DistinctNames(names)
    ensures DistinctNames(ClaimSlot(names, name).1)
    ensures forall i :: 0 <= i < |names| && ClaimSlot(names, name).1[i] != names[i] ==>
      names[i] == FreeSlot && ClaimSlot(names, name).0 == Some(i)
  {
    var (ind, after) := ClaimSlot(names, name);
    if FindSlot(names, name, 0).None? && FindSlot(names, FreeSlot, 0).Some? {
      var k := FindSlot(names, FreeSlot, 0).value;
      forall i, j | 0 <= i < j < |after| && after[i] != FreeSlot
        ensures after[i] != after[j]
      {
        if i == k {
          assert after[j] == names[j];
        } else if j == k {
          assert after[i] == names[i];
        }
      }
    }
  }

  /** The main window, reduced to the state the modelled handlers touch. */
  class GUI {
    var voz: seq<real>
    var className: seq<string>
    var patrones: seq<Pattern>
    var pesW: seq<real>
    var numK: seq<int>
    var hiloTrainNet: HiloTrainNet

    /** A fresh window: no signal, no patterns, the placeholder net and
        `slots` free class slots (crearGUI is called with 16). */
    constructor (slots: nat)
      ensures voz == [] && patrones == [] && pesW == [0.0] && numK == [0]
      ensures |className| == slots && forall i :: 0 <= i < slots ==> className[i] == FreeSlot
      ensures Valid() && fresh(hiloTrainNet)
    {
      voz := [];
      patrones := [];
      pesW := [0.0];
      numK := [0];
      className := seq(slots, _ => FreeSlot);
      hiloTrainNet := new HiloTrainNet();
    }

    /** Labels index class slots and class names are distinct. */
    predicate Valid()
      reads this
    {
      LabelsInSlots(patrones, |className|) && DistinctNames(className)
    }

    /** cutSignal: keep the band between the limits, or everything outside
        it. An unreadable limit leaves the signal as it was. */
    method CutSignal(isBand: bool, textMin: LimitText, textMax: LimitText) returns (ok: bool)
      modifies this
      ensures ok <==> textMin != Unreadable && textMax != Unreadable
      ensures className == old(className) && patrones == old(patrones)
      ensures pesW == old(pesW) && numK == old(numK) && hiloTrainNet == old(hiloTrainNet)
      ensures !ok ==> voz == old(voz)
      ensures ok ==>
        var inf := if textMin.Samples? then textMin.index else 0;
        var sup := if textMax.Samples? then textMax.index else |old(voz)|;
        var (lo, hi) := CutLimits(|old(voz)|, inf, sup);
        voz == Cut(old(voz), isBand, lo, hi)
    {
      if textMin == Unreadable || textMax == Unreadable {
        return false;
      }
      var limInf := if textMin.Samples? then textMin.index else 0;
      var limSup := if textMax.Samples? then textMax.index else |voz|;
      limInf := MinInt(MaxInt(limInf, 0), |voz| - 1);
      limSup := MinInt(MaxInt(limSup, 1), |voz|);
      if limInf >= limSup {
        limSup := limInf + 1;
      }
      if isBand {
        voz := Slice(voz, limInf, limSup);
      } else {
        voz := Slice(voz, 0, limInf) + Slice(voz, limSup, |voz|);
      }
      return true;
    }

    /** finGeneralExtract: look up the slot named after the sound (the
        first such slot, else the first free one, which takes the name),
        then append the sound's rows labelled with that slot and clear the
        training history. With no slot left nothing changes. */
    method FileExtract(name: string, tono: real, param: seq<seq<real>>) returns (ind: Option<nat>)
      requires Valid()
      modifies this, hiloTrainNet
      ensures Valid()
      ensures ind == ClaimSlot(old(className), name).0
      ensures className == ClaimSlot(old(className), name).1
      ensures voz == old(voz) && pesW == old(pesW) && numK == old(numK) && hiloTrainNet == old(hiloTrainNet)
      ensures ind.None? ==> patrones == old(patrones) && hiloTrainNet.error == old(hiloTrainNet.error)
      ensures ind.Some? ==> patrones == old(patrones) + Block(param, tono, ind.value)
      ensures ind.Some? ==> hiloTrainNet.error == []
      ensures hiloTrainNet.patrones == old(hiloTrainNet.patrones) && hiloTrainNet.pesW == old(hiloTrainNet.pesW)
      ensures hiloTrainNet.numK == old(hiloTrainNet.numK) && hiloTrainNet.step == old(hiloTrainNet.step)
      ensures hiloTrainNet.goal == old(hiloTrainNet.goal) && hiloTrainNet.muta == old(hiloTrainNet.muta)
    {
      ClaimKeepsNamesDistinct(className, name);
      ind := None;
      var i := 0;
      while i < |className|
        invariant i <= |className|
        invariant FindSlot(className, name, 0) == FindSlot(className, name, i)
      {
        if className[i] == name {
          ind := Some(i);
          break;
        }
        i := i + 1;
      }
      if ind.None? {
        i := 0;
        while i < |className|
          invariant i <= |className|
          invariant FindSlot(className, FreeSlot, 0) == FindSlot(className, FreeSlot, i)
        {
          if className[i] == FreeSlot {
            className := className[i := name];
            ind := Some(i);
            break;
          }
          i := i + 1;
        }
      }
      if ind.Some? {
        patrones := patrones + Block(param, tono, ind.value);
        hiloTrainNet.error := [];
      }
    }

    /** exportNet: the text of the file written for the current net. */
    method ExportNet(showReal: real -> string, showInt: int -> string) returns (text: string)
      ensures text == FileText(NetLines(pesW, numK, showReal, showInt))
    {
      var weights := JoinLine(Shown(pesW, showReal), ",");
      var counts := JoinLine(Shown(numK, showInt), ",");
      var active := JoinLine(Copies("1", SumInts(numK)), ",");
      var high := JoinLine(Copies("1.", 14), ",");
      var low := JoinLine(Copies("-1.", 14), ",");
      var outputs := JoinLine(ClassNames(|numK|, showInt), ", ");
      var lines := [ "DMNN: SoundRecognitionDSP", "Dimension: Entradas, Clases", "14,3",
                     "Pesos", weights, "DendritasPorClase", counts, "Activas", active,
                     "NormalizacionH", high, "NormalizacionL", low, "NormalizacionN: 0.0",
                     "NombresSalidas: " + outputs, InputNames ];
      text := JoinLine(lines + [""], "\n");
    }

    /** importNet: read the tagged file's weights line, store the weights,
        then read its dendrite counts line and store them, and clear the
        training history. A missing line or a number float() or int()
        rejects stops the import where it is. */
    method ImportNet(text: string, parseReal: string -> Option<real>, parseInt: string -> Option<int>)
      returns (outcome: Outcome)
      modifies this, hiloTrainNet
      ensures var r := ImportOf(text, parseReal, parseInt);
        outcome == r.0
        && pesW == (if r.1.Some? then r.1.value else old(pesW))
        && numK == (if r.2.Some? then r.2.value else old(numK))
        && hiloTrainNet.error == (if r.0 == Loaded then [] else old(hiloTrainNet.error))
      ensures voz == old(voz) && className == old(className) && patrones == old(patrones)
      ensures hiloTrainNet == old(hiloTrainNet)
      ensures hiloTrainNet.patrones == old(hiloTrainNet.patrones) && hiloTrainNet.pesW == old(hiloTrainNet.pesW)
      ensures hiloTrainNet.numK == old(hiloTrainNet.numK) && hiloTrainNet.step == old(hiloTrainNet.step)
      ensures hiloTrainNet.goal == old(hiloTrainNet.goal) && hiloTrainNet.muta == old(hiloTrainNet.muta)
    {
      var txt := Split(text, '\n');
      if !Tagged(txt[0]) {
        return NotANet;
      }
      if |txt| <= 4 {
        return Failed;
      }
      var w := ParseEach(Split(txt[4], ','), parseReal);
      if w.None? {
        return Failed;
      }
      pesW := w.value;
      if |txt| <= 6 {
        return Failed;
      }
      var k := ParseEach(Split(txt[6], ','), parseInt);
      if k.None? {
        return Failed;
      }
      numK := k.value;
      hiloTrainNet.error := [];
      return Loaded;
    }
  }

  /** One of exportNet's loops: every item followed by the separator, then
      the last separator cut off (txt[:-1], txt[:-2]); no items give "". */
  method JoinLine(items: seq<string>, sep: string) returns (line: string)
    ensures line == Joined(items, sep)
  {
    var txt := "";
    for i := 0 to |items|
      invariant i == 0 ==> txt == ""
      invariant i > 0 ==> txt == Joined(items[..i], sep) + sep
    {
      assert items[..i + 1][..i] == items[..i];
      txt := txt + items[i] + sep;
    }
    assert items[..|items|] == items;
    line := if |txt| >= |sep| then txt[..|txt| - |sep|] else "";
  }

  /** One of importNet's loops: every text converted, stopping at the
      first the conversion rejects. */
  method ParseEach<T>(texts: seq<string>, parse: string -> Option<T>) returns (r: Option<seq<T>>)
    ensures r == ParseAll(texts, parse)
  {
    var acc := [];
    for i := 0 to |texts|
      invariant ParseAll(texts[..i], parse) == Some(acc)
    {
      assert texts[..i + 1][..i] == texts[..i];
      var x := parse(texts[i]);
      if x.None? {
        return None;
      }
      acc := acc + [x.value];
    }
    assert texts[..|texts|] == texts;
    return Some(acc);
  }
}
