/** `CFFGLPluginManager` (FFGLPluginManager.cpp): the plugin's parameter table.
    Every `Set*ParamInfo` appends one `ParamInfo`; every lookup is a
    first-match linear scan by ID; element writes are bounds-checked.

    The FFGL headers are not part of this model: parameter types are a
    datatype instead of the `FF_TYPE_*` codes, and a getter's `FF_FAIL`,
    `nullptr` or fallback result is `None`. */
module FfglPluginManager {
  import opened Wrappers

  /** `FF_SUCCESS` / `FF_FAIL` as a result code. */
  datatype FFResult = FFSuccess | FFFail

  /** The `FF_TYPE_*` codes the table distinguishes; any other code is `OtherType`. */
  datatype ParamType =
    | StandardType | AlphaType | BooleanType | OptionType | BufferType | TextType | FileType
    | OtherType(code: nat)

  datatype ParamElement = ParamElement(name: string, value: real)

  datatype Range = Range(min: real, max: real)

  datatype ParamInfo = ParamInfo(
    id: nat,
    name: seq<char>,                // the fixed-size `Name` array
    dwType: ParamType,
    defaultFloatVal: real,
    defaultStringVal: string,
    range: Range,
    elements: seq<ParamElement>,
    usage: nat,
    supportedExtensions: seq<string>)

  /** What `GetParamDefault` hands back: the string default of text and file
      parameters, the float default of every other type. */
  datatype DefaultValue = FloatDefault(f: real) | StringDefault(s: string)

  /** `sizeof(ParamInfo::Name)`. */
  const NameSize: nat := 16

  /** `FF_USAGE_STANDARD`. */
  const UsageStandard: nat := 0

  /** The range of a fresh `ParamInfo`, and the fallback of `GetParamRange`. */
  const DefaultRange := Range(0.0, 1.0)

  /** The `Name` array after `memset` to zero and `memcpy` of at most
      `sizeof(Name)` characters of `s`. */
  function NameOf(s: string): (n: seq<char>)
    ensures |n| == NameSize
    ensures |s| <= NameSize ==> n[..|s|] == s
    ensures |s| > NameSize ==> n == s[..NameSize]
    ensures forall i :: |s| <= i < NameSize ==> n[i] == '\0'
  {
    if |s| >= NameSize then s[..NameSize]
    else s + seq(NameSize - |s|, _ => '\0')
  }

  /** The float default `SetParamInfo` stores: clamped into [0, 1] for
      `FF_TYPE_STANDARD`, as given for every other type. */
  function StoredDefault(t: ParamType, v: real): (r: real)
    ensures t == StandardType ==> 0.0 <= r <= 1.0
    ensures t == StandardType && 0.0 <= v <= 1.0 ==> r == v
    ensures t == StandardType && v > 1.0 ==> r == 1.0
    ensures t == StandardType && v < 0.0 ==> r == 0.0
    ensures t != StandardType ==> r == v
  {
    var clamped := if t == StandardType && v > 1.0 then 1.0 else v;
    if t == StandardType && clamped < 0.0 then 0.0 else clamped
  }

  /** A default-constructed `ParamInfo` with the given ID and name. */
  function Fresh(id: nat, name: string, t: ParamType): (p: ParamInfo)
    ensures p.id == id && p.name == NameOf(name) && p.dwType == t
    ensures p.range == DefaultRange && p.usage == UsageStandard
    ensures p.elements == [] && p.supportedExtensions == []
  {
    ParamInfo(id, NameOf(name), t, 0.0, "", DefaultRange, [], UsageStandard, [])
  }

  /** `elements.resize(n)`: `n` value-initialised elements. */
  function Blank(n: nat): (es: seq<ParamElement>)
    ensures |es| == n
    ensures forall i :: 0 <= i < n ==> es[i] == ParamElement("", 0.0)
  {
    seq(n, _ => ParamElement("", 0.0))
  }

  /** `FindParamInfo`: index of the first entry with ID `id`, if any. */
  function Find(params: seq<ParamInfo>, id: nat): (r: Option<nat>)
    ensures r.Some? ==> r.value < |params| && params[r.value].id == id
    ensures r.Some? ==> forall j :: 0 <= j < r.value ==> params[j].id != id
    ensures r.None? <==> forall j :: 0 <= j < |params| ==> params[j].id != id
  {
    if params == [] then None
    else if params[0].id == id then Some(0)
    else match Find(params[1..], id)
      case None => None
      case Some(k) => Some(k + 1)
  }

  /** Appending an entry never changes which entry an ID already found: an
      earlier entry shadows a later one with the same ID. Only a new ID finds
      the new entry. */
  lemma FindAfterAppend(params: seq<ParamInfo>, p: ParamInfo, id: nat)
    ensures Find(params, id).Some? ==> Find(params + [p], id) == Find(params, id)
    ensures Find(params, id).None? ==>
      Find(params + [p], id) == if p.id == id then Some(|params|) else None
  {
    var after := params + [p];
    if Find(params, id).Some? {
      var k := Find(params, id).value;
      assert after[k] == params[k];
      FindUnique(after, id, k);
    } else if p.id == id {
      FindUnique(after, id, |params|);
    }
  }

  /** The first entry with ID `id` is the one `Find` returns. */
  lemma FindUnique(params: seq<ParamInfo>, id: nat, k: nat)
    requires k < |params| && params[k].id == id
    requires forall j :: 0 <= j < k ==> params[j].id != id
    ensures Find(params, id) == Some(k)
  {
    var r := Find(params, id);
    assert r.Some?;
    assert !(r.value < k);
    assert !(k < r.value);
  }

  /** Entries other than `k` and elements other than `i` are untouched when
      element `i` of entry `k` is replaced. */
  function WithElement(params: seq<ParamInfo>, k: nat, i: nat, e: ParamElement): (r: seq<ParamInfo>)
    requires k < |params| && i < |params[k].elements|
    ensures |r| == |params|
    ensures forall j :: 0 <= j < |params| && j != k ==> r[j] == params[j]
    ensures r[k] == params[k].(elements := r[k].elements)
    ensures |r[k].elements| == |params[k].elements| && r[k].elements[i] == e
    ensures forall m :: 0 <= m < |params[k].elements| && m != i ==> r[k].elements[m] == params[k].elements[m]
  {
    params[k := params[k].(elements := params[k].elements[i := e])]
  }

  class PluginManager {
    var params: seq<ParamInfo>
    var minInputs: nat
    var maxInputs: nat
    var timeSupported: bool

    constructor()
      ensures params == [] && GetMinInputs() == 0 && GetMaxInputs() == 0 && GetTimeSupported()
    {
      params := [];
      minInputs := 0;
      maxInputs := 0;
      timeSupported := true;
    }

    function GetMinInputs(): nat
      reads this
    {
      minInputs
    }

    function GetMaxInputs(): nat
      reads this
    {
      maxInputs
    }

    function GetTimeSupported(): bool
      reads this
    {
      timeSupported
    }

    function GetNumParams(): (n: nat)
      reads this
      ensures n == |params|
    {
      |params|
    }

    method SetMinInputs(n: nat)
      modifies this
      ensures GetMinInputs() == n
      ensures params == old(params) && maxInputs == old(maxInputs) && timeSupported == old(timeSupported)
    {
      minInputs := n;
    }

    method SetMaxInputs(n: nat)
      modifies this
      ensures GetMaxInputs() == n
      ensures params == old(params) && minInputs == old(minInputs) && timeSupported == old(timeSupported)
    {
      maxInputs := n;
    }

    method SetTimeSupported(supported: bool)
      modifies this
      ensures GetTimeSupported() == supported
      ensures params == old(params) && minInputs == old(minInputs) && maxInputs == old(maxInputs)
    {
      timeSupported := supported;
    }

    /** The float overload of `SetParamInfo`: one element, standard usage, a
        float default (clamped for `FF_TYPE_STANDARD`). */
    method SetParamInfo(pIndex: nat, pchName: string, pType: ParamType, fDefaultValue: real)
      modifies this
      ensures params == old(params) + [Fresh(pIndex, pchName, pType).(
        elements := Blank(1), defaultFloatVal := StoredDefault(pType, fDefaultValue))]
      ensures Find(old(params), pIndex).None? ==>
        && GetParamName(pIndex) == Some(NameOf(pchName))
        && GetNumParamElements(pIndex) == Some(1)
        && (pType != TextType && pType != FileType ==>
              GetParamDefault(pIndex) == Some(FloatDefault(StoredDefault(pType, fDefaultValue))))
      ensures Find(old(params), pIndex).Some? ==> Find(params, pIndex) == Find(old(params), pIndex)
      ensures minInputs == old(minInputs) && maxInputs == old(maxInputs) && timeSupported == old(timeSupported)
    {
      var pInfo := Fresh(pIndex, pchName, pType);
      pInfo := pInfo.(elements := Blank(1), usage := 0);
      var defaultValue := fDefaultValue;
      if pType == StandardType {
        if defaultValue > 1.0 {
          defaultValue := 1.0;
        }
        if defaultValue < 0.0 {
          defaultValue := 0.0;
        }
      }
      pInfo := pInfo.(defaultFloatVal := defaultValue);
      FindAfterAppend(params, pInfo, pIndex);
      params := params + [pInfo];
    }

    /** The `bool` overload of `SetParamInfo`: no elements, default 1.0 or 0.0. */
    method SetBoolParamInfo(pIndex: nat, pchName: string, pType: ParamType, bDefaultValue: bool)
      modifies this
      ensures params == old(params) + [Fresh(pIndex, pchName, pType).(
        defaultFloatVal := if bDefaultValue then 1.0 else 0.0)]
      ensures Find(old(params), pIndex).None? && pType != TextType && pType != FileType ==>
        GetParamDefault(pIndex) == Some(FloatDefault(if bDefaultValue then 1.0 else 0.0))
      ensures minInputs == old(minInputs) && maxInputs == old(maxInputs) && timeSupported == old(timeSupported)
    {
      var pInfo := Fresh(pIndex, pchName, pType);
      pInfo := pInfo.(defaultFloatVal := if bDefaultValue then 1.0 else 0.0);
      FindAfterAppend(params, pInfo, pIndex);
      params := params + [pInfo];
    }

    /** The string overload of `SetParamInfo`: one element, a string default. */
    method SetTextParamInfo(dwIndex: nat, pchName: string, dwType: ParamType, pchDefaultValue: string)
      modifies this
      ensures params == old(params) + [Fresh(dwIndex, pchName, dwType).(
        elements := Blank(1), defaultStringVal := pchDefaultValue)]
      ensures Find(old(params), dwIndex).None? && (dwType == TextType || dwType == FileType) ==>
        GetParamDefault(dwIndex) == Some(StringDefault(pchDefaultValue))
      ensures minInputs == old(minInputs) && maxInputs == old(maxInputs) && timeSupported == old(timeSupported)
    {
      var pInfo := Fresh(dwIndex, pchName, dwType);
      pInfo := pInfo.(elements := Blank(1), usage := 0, defaultStringVal := pchDefaultValue);
      FindAfterAppend(params, pInfo, dwIndex);
      params := params + [pInfo];
    }

    method SetBufferParamInfo(pIndex: nat, pchName: string, numElements: nat, usage: nat)
      modifies this
      ensures params == old(params) + [Fresh(pIndex, pchName, BufferType).(
        elements := Blank(numElements), usage := usage)]
      ensures Find(old(params), pIndex).None? ==>
        GetNumParamElements(pIndex) == Some(numElements) && GetParamUsage(pIndex) == Some(usage)
      ensures minInputs == old(minInputs) && maxInputs == old(maxInputs) && timeSupported == old(timeSupported)
    {
      var pInfo := Fresh(pIndex, pchName, BufferType);
      pInfo := pInfo.(elements := Blank(numElements), usage := usage, defaultFloatVal := 0.0);
      FindAfterAppend(params, pInfo, pIndex);
      params := params + [pInfo];
    }

    method SetOptionParamInfo(pIndex: nat, pchName: string, numElements: nat, defaultValue: real)
      modifies this
      ensures params == old(params) + [Fresh(pIndex, pchName, OptionType).(
        elements := Blank(numElements), defaultFloatVal := defaultValue)]
      ensures Find(old(params), pIndex).None? ==>
        GetNumParamElements(pIndex) == Some(numElements) && GetParamDefault(pIndex) == Some(FloatDefault(defaultValue))
      ensures minInputs == old(minInputs) && maxInputs == old(maxInputs) && timeSupported == old(timeSupported)
    {
      var pInfo := Fresh(pIndex, pchName, OptionType);
      pInfo := pInfo.(elements := Blank(numElements), usage := UsageStandard, defaultFloatVal := defaultValue);
      FindAfterAppend(params, pInfo, pIndex);
      params := params + [pInfo];
    }

    method SetFileParamInfo(index: nat, pchName: string, supportedExtensions: seq<string>)
      modifies this
      ensures params == old(params) + [Fresh(index, pchName, FileType).(
        supportedExtensions := supportedExtensions)]
      ensures Find(old(params), index).None? ==>
        && GetNumFileParamExtensions(index) == |supportedExtensions|
        && forall i :: 0 <= i < |supportedExtensions| ==> GetFileParamExtension(index, i) == Some(supportedExtensions[i])
      ensures minInputs == old(minInputs) && maxInputs == old(maxInputs) && timeSupported == old(timeSupported)
    {
      var pInfo := Fresh(index, pchName, FileType);
      pInfo := pInfo.(usage := 0, supportedExtensions := supportedExtensions);
      FindAfterAppend(params, pInfo, index);
      params := params + [pInfo];
    }

    /** The scan of `FindParamInfo`: the index of the first entry with ID
        `id`, or `None` for its `nullptr`. */
    method FindParamInfo(id: nat) returns (r: Option<nat>)
      ensures r == Find(params, id)
    {
      var k := 0;
      while k < |params|
        invariant k <= |params|
        invariant forall j :: 0 <= j < k ==> params[j].id != id
      {
        if params[k].id == id {
          FindUnique(params, id, k);
          return Some(k);
        }
        k := k + 1;
      }
      return None;
    }

    /** Names and values element `elementIndex` of parameter `paramID`; an
        unknown ID or an index past the elements changes nothing. */
    method SetParamElementInfo(paramID: nat, elementIndex: nat, elementName: string, elementValue: real)
      modifies this
      ensures var k := Find(old(params), paramID);
        params == if k.Some? && elementIndex < |old(params)[k.value].elements|
          then WithElement(old(params), k.value, elementIndex, ParamElement(elementName, elementValue))
          else old(params)
      ensures var k := Find(old(params), paramID);
        k.Some? && elementIndex < |old(params)[k.value].elements| ==>
          Element(paramID, elementIndex) == Some(ParamElement(elementName, elementValue))
      ensures minInputs == old(minInputs) && maxInputs == old(maxInputs) && timeSupported == old(timeSupported)
    {
      var paramInfo := FindParamInfo(paramID);
      if paramInfo.None? {
        return;
      }
      var k := paramInfo.value;
      if elementIndex >= |params[k].elements| {
        return;
      }
      ghost var before := params;
      params := WithElement(params, k, elementIndex, ParamElement(elementName, elementValue));
      FindSameIds(before, params, paramID);
    }

    /** Sets the value of element `elIndex` of parameter `dwIndex`, or fails
        on an unknown ID or an index past the elements. */
    method SetParamElementValue(dwIndex: nat, elIndex: nat, newValue: real) returns (r: FFResult)
      modifies this
      ensures var k := Find(old(params), dwIndex);
        r == if k.Some? && elIndex < |old(params)[k.value].elements| then FFSuccess else FFFail
      ensures r == FFFail ==> params == old(params)
      ensures r == FFSuccess ==>
        var k := Find(old(params), dwIndex).value;
        params == WithElement(old(params), k, elIndex, old(params)[k].elements[elIndex].(value := newValue))
      ensures r == FFSuccess ==> GetParamElementDefault(dwIndex, elIndex) == Some(newValue)
      ensures minInputs == old(minInputs) && maxInputs == old(maxInputs) && timeSupported == old(timeSupported)
    {
      var paramInfo := FindParamInfo(dwIndex);
      if paramInfo.None? {
        return FFFail;
      }
      var k := paramInfo.value;
      if elIndex >= |params[k].elements| {
        return FFFail;
      }
      ghost var before := params;
      params := WithElement(params, k, elIndex, params[k].elements[elIndex].(value := newValue));
      FindSameIds(before, params, dwIndex);
      return FFSuccess;
    }

    /** Sets the range of parameter `index`; an unknown ID changes nothing. */
    method SetParamRange(index: nat, min: real, max: real)
      modifies this
      ensures var k := Find(old(params), index);
        params == if k.Some? then old(params)[k.value := old(params)[k.value].(range := Range(min, max))]
          else old(params)
      ensures Find(old(params), index).Some? ==> GetParamRange(index) == Range(min, max)
      ensures minInputs == old(minInputs) && maxInputs == old(maxInputs) && timeSupported == old(timeSupported)
    {
      var paramInfo := FindParamInfo(index);
      if paramInfo.Some? {
        var k := paramInfo.value;
        ghost var before := params;
        params := params[k := params[k].(range := Range(min, max))];
        FindSameIds(before, params, index);
      }
    }

    /** The range of parameter `index`, or [0, 1] for an unknown ID. */
    function GetParamRange(index: nat): (r: Range)
      reads this
      ensures Find(params, index).None? ==> r == DefaultRange
      ensures Find(params, index).Some? ==> r == params[Find(params, index).value].range
    {
      match Find(params, index)
      case None => DefaultRange
      case Some(k) => params[k].range
    }

    function GetParamName(dwIndex: nat): (r: Option<seq<char>>)
      reads this
      ensures r.None? <==> Find(params, dwIndex).None?
      ensures r.Some? ==> r.value == params[Find(params, dwIndex).value].name
    {
      match Find(params, dwIndex)
      case None => None
      case Some(k) => Some(params[k].name)
    }

    function GetParamType(dwIndex: nat): (r: Option<ParamType>)
      reads this
      ensures r.None? <==> Find(params, dwIndex).None?
      ensures r.Some? ==> r.value == params[Find(params, dwIndex).value].dwType
    {
      match Find(params, dwIndex)
      case None => None
      case Some(k) => Some(params[k].dwType)
    }

    function GetNumParamElements(dwIndex: nat): (r: Option<nat>)
      reads this
      ensures r.None? <==> Find(params, dwIndex).None?
      ensures r.Some? ==> r.value == |params[Find(params, dwIndex).value].elements|
    {
      match Find(params, dwIndex)
      case None => None
      case Some(k) => Some(|params[k].elements|)
    }

    /** The element of parameter `dwIndex` at `elIndex`, if both exist. */
    function Element(dwIndex: nat, elIndex: nat): (r: Option<ParamElement>)
      reads this
      ensures r.Some? <==> Find(params, dwIndex).Some? && elIndex < |params[Find(params, dwIndex).value].elements|
      ensures r.Some? ==> r.value == params[Find(params, dwIndex).value].elements[elIndex]
    {
      match Find(params, dwIndex)
      case None => None
      case Some(k) => if elIndex < |params[k].elements| then Some(params[k].elements[elIndex]) else None
    }

    function GetParamElementName(dwIndex: nat, elIndex: nat): (r: Option<string>)
      reads this
      ensures r.Some? <==> Element(dwIndex, elIndex).Some?
      ensures r.Some? ==> r.value == Element(dwIndex, elIndex).value.name
    {
      match Element(dwIndex, elIndex)
      case None => None
      case Some(e) => Some(e.name)
    }

    function GetParamElementDefault(dwIndex: nat, elIndex: nat): (r: Option<real>)
      reads this
      ensures r.Some? <==> Element(dwIndex, elIndex).Some?
      ensures r.Some? ==> r.value == Element(dwIndex, elIndex).value.value
    {
      match Element(dwIndex, elIndex)
      case None => None
      case Some(e) => Some(e.value)
    }

    function GetParamUsage(dwIndex: nat): (r: Option<nat>)
      reads this
      ensures r.None? <==> Find(params, dwIndex).None?
      ensures r.Some? ==> r.value == params[Find(params, dwIndex).value].usage
    {
      match Find(params, dwIndex)
      case None => None
      case Some(k) => Some(params[k].usage)
    }

    /** The default of parameter `dwIndex`: its string default for text and
        file parameters, its float default otherwise. */
    function GetParamDefault(dwIndex: nat): (r: Option<DefaultValue>)
      reads this
      ensures r.None? <==> Find(params, dwIndex).None?
      ensures r.Some? ==>
        var p := params[Find(params, dwIndex).value];
        r.value == if p.dwType == TextType || p.dwType == FileType
          then StringDefault(p.defaultStringVal) else FloatDefault(p.defaultFloatVal)
    {
      match Find(params, dwIndex)
      case None => None
      case Some(k) =>
        if GetParamType(dwIndex) == Some(TextType) || GetParamType(dwIndex) == Some(FileType)
        then Some(StringDefault(params[k].defaultStringVal))
        else Some(FloatDefault(params[k].defaultFloatVal))
    }

    function GetNumFileParamExtensions(index: nat): (n: nat)
      reads this
      ensures Find(params, index).None? ==> n == 0
      ensures Find(params, index).Some? ==> n == |params[Find(params, index).value].supportedExtensions|
    {
      match Find(params, index)
      case None => 0
      case Some(k) => |params[k].supportedExtensions|
    }

    function GetFileParamExtension(paramIndex: nat, extensionIndex: nat): (r: Option<string>)
      reads this
      ensures r.Some? <==> extensionIndex < GetNumFileParamExtensions(paramIndex)
      ensures r.Some? ==> r.value == params[Find(params, paramIndex).value].supportedExtensions[extensionIndex]
    {
      match Find(params, paramIndex)
      case None => None
      case Some(k) =>
        if extensionIndex < |params[k].supportedExtensions| then Some(params[k].supportedExtensions[extensionIndex])
        else None
    }
  }

  /** Two tables whose entries carry the same IDs find every ID alike. */
  lemma {:induction false} FindSameIds(ps: seq<ParamInfo>, qs: seq<ParamInfo>, id: nat)
    requires |ps| == |qs|
    requires forall j :: 0 <= j < |ps| ==> ps[j].id == qs[j].id
    ensures Find(ps, id) == Find(qs, id)
  {
    if ps != [] {
      FindSameIds(ps[1..], qs[1..], id);
    }
  }
}
