/** A media resource and its serialised form `handler~attributes~parameters~options`. */
module CdsResource {
  import opened Wrappers
  import opened Strings
  import opened Dictionaries

  datatype Resource = Resource(handlerType: int, attributes: Pairs, parameters: Pairs, options: Pairs)
  {
    ghost predicate Valid() {
      && DistinctKeys(attributes) && DistinctKeys(parameters) && DistinctKeys(options)
      && BytePairs(attributes) && BytePairs(parameters) && BytePairs(options)
    }
  }

  function EncodeResource(r: Resource): string
    requires BytePairs(r.attributes) && BytePairs(r.parameters) && BytePairs(r.options)
  {
    IntToString(r.handlerType) + "~" + EncodePairs(r.attributes, '&', '=') + "~" +
    EncodePairs(r.parameters, '&', '=') + "~" + EncodePairs(r.options, '&', '=')
  }

  function DecodeParts(parts: seq<string>): (r: Result<Resource, string>)
  {
    if |parts| < 2 || |parts| > 4 then Err("CdsResource::decode: Could not parse resources")
    else Ok(Resource(ToInt(parts[0]),
                     DecodeOnto([], parts[1]),
                     if |parts| >= 3 then DecodeOnto([], parts[2]) else [],
                     if |parts| >= 4 then DecodeOnto([], parts[3]) else []))
  }

  function DecodeResource(serial: string): Result<Resource, string> {
    DecodeParts(Split(serial, '~', true))
  }

  lemma {:induction false} EncodeIsSafe(d: Pairs)
    requires BytePairs(d)
    ensures '~' !in EncodePairs(d, '&', '=')
    ensures EncodePairs(d, '&', '=') == "" <==> d == []
  {
    if d != [] {
      var p := d[0];
      assert BytePairs([p]);
      assert [p][0] == p;
      EscapeIsSafe(p.key);
      EscapeIsSafe(p.value);
      assert '~' !in EncodePair(p, '=');
      if |d| > 1 {
        EncodeIsSafe(d[1..]);
      }
    }
  }

  /** Text without separators, alone or at the front of more text. */
  lemma SplitLast(a: string)
    requires '~' !in a
    ensures Split(a, '~', true) == if a == "" then [] else [a]
  {
    if a != "" {
      SplitPart(a, '~', "", true);
    }
  }

  lemma SplitFront(a: string, rest: string)
    requires '~' !in a
    ensures Split(a + "~" + rest, '~', true) ==
      (if a != "" || rest != "" then [a] else []) + Split(rest, '~', true)
  {
    if a == "" {
      SplitEmptyPart('~', rest, true);
      assert a + "~" + rest == ['~'] + rest;
    } else {
      SplitPart(a, '~', rest, true);
    }
  }

  /** Decoding the four-part form gives back the resource: every handler type, every three
      dictionaries, empty or not. */
  lemma DecodeEncodeResource(r: Resource)
    requires r.Valid()
    ensures DecodeResource(EncodeResource(r)) == Ok(r)
  {
    var h := IntToString(r.handlerType);
    var a, p, o := EncodePairs(r.attributes, '&', '='), EncodePairs(r.parameters, '&', '='),
                   EncodePairs(r.options, '&', '=');
    IntToStringIsSafe(r.handlerType);
    ToIntOfString(r.handlerType);
    EncodeIsSafe(r.attributes);
    EncodeIsSafe(r.parameters);
    EncodeIsSafe(r.options);
    DecodeEncode(r.attributes);
    DecodeEncode(r.parameters);
    DecodeEncode(r.options);
    SplitFour(h, a, p, o);
  }

  lemma SplitFour(h: string, a: string, p: string, o: string)
    requires h != "" && '~' !in h && '~' !in a && '~' !in p && '~' !in o
    ensures var parts := Split(h + "~" + a + "~" + p + "~" + o, '~', true);
      && 2 <= |parts| <= 4
      && parts[0] == h && parts[1] == a
      && (if |parts| >= 3 then parts[2] == p else p == "")
      && (if |parts| >= 4 then parts[3] == o else o == "")
  {
    hide Split;
    var po := p + "~" + o;
    var apo := a + "~" + po;
    assert h + "~" + a + "~" + p + "~" + o == h + "~" + apo;
    SplitFront(h, apo);
    SplitFront(a, po);
    SplitFront(p, o);
    SplitLast(o);
  }

  /** The older forms: with two parts, and with three, the missing dictionaries decode as empty.
      They are read exactly when some part behind the handler is not empty; "0~" and "0~~" are
      refused, although "0~~~" is read. */
  lemma DecodeShortForms(r: Resource)
    requires r.Valid()
    ensures var h := IntToString(r.handlerType);
      var a, p := EncodePairs(r.attributes, '&', '='), EncodePairs(r.parameters, '&', '=');
      && (DecodeResource(h + "~" + a) == Ok(r.(parameters := [], options := []))
          <==> r.attributes != [])
      && (DecodeResource(h + "~" + a).Err? <==> r.attributes == [])
      && (DecodeResource(h + "~" + a + "~" + p) == Ok(r.(options := []))
          <==> r.attributes != [] || r.parameters != [])
      && (DecodeResource(h + "~" + a + "~" + p).Err?
          <==> r.attributes == [] && r.parameters == [])
  {
    hide Split, DecodeOnto, EncodePairs, ToInt;
    var h := IntToString(r.handlerType);
    var a, p := EncodePairs(r.attributes, '&', '='), EncodePairs(r.parameters, '&', '=');
    IntToStringIsSafe(r.handlerType);
    ToIntOfString(r.handlerType);
    EncodeIsSafe(r.attributes);
    EncodeIsSafe(r.parameters);
    DecodeEncode(r.attributes);
    DecodeEncode(r.parameters);
    SplitTwo(h, a);
    SplitThree(h, a, p);
  }

  lemma SplitTwo(h: string, a: string)
    requires h != "" && '~' !in h && '~' !in a
    ensures Split(h + "~" + a, '~', true) == if a == "" then [h] else [h, a]
  {
    SplitFront(h, a);
    SplitLast(a);
  }

  lemma SplitThree(h: string, a: string, p: string)
    requires h != "" && '~' !in h && '~' !in a && '~' !in p
    ensures Split(h + "~" + a + "~" + p, '~', true) ==
      if p != "" then [h, a, p] else if a != "" then [h, a] else [h]
  {
    hide Split;
    var ap := a + "~" + p;
    assert h + "~" + a + "~" + p == h + "~" + ap;
    SplitFront(h, ap);
    SplitFront(a, p);
    SplitLast(p);
  }

  class CdsResource {
    const handlerType: int
    const attributes: Dictionary
    const parameters: Dictionary
    const options: Dictionary

    function View(): Resource
      reads attributes, parameters, options
    {
      Resource(handlerType, attributes.elements, parameters.elements, options.elements)
    }

    constructor (handlerType: int, attributes: Dictionary, parameters: Dictionary, options: Dictionary)
      ensures this.handlerType == handlerType && this.attributes == attributes
      ensures this.parameters == parameters && this.options == options
    {
      this.handlerType := handlerType;
      this.attributes := attributes;
      this.parameters := parameters;
      this.options := options;
    }

    method Encode() returns (buf: string)
      requires View().Valid()
      ensures buf == EncodeResource(View())
    {
      buf := IntToString(handlerType);
      buf := buf + "~";
      var text := attributes.Encode();
      buf := buf + text;
      buf := buf + "~";
      text := parameters.Encode();
      buf := buf + text;
      buf := buf + "~";
      text := options.Encode();
      buf := buf + text;
    }

    static method Decode(serial: string) returns (resource: Result<CdsResource, string>)
      ensures resource.Ok? ==> fresh(resource.value) && DecodeResource(serial) == Ok(resource.value.View())
      ensures resource.Err? ==> DecodeResource(serial) == Err(resource.error)
    {
      var parts := SplitString(serial, '~', true);
      var size := |parts|;
      if size < 2 || size > 4 {
        return Err("CdsResource::decode: Could not parse resources");
      }
      var handlerType := ToInt(parts[0]);
      var attr := new Dictionary();
      attr.Decode(parts[1]);
      var par := new Dictionary();
      if size >= 3 {
        par.Decode(parts[2]);
      }
      var opt := new Dictionary();
      if size >= 4 {
        opt.Decode(parts[3]);
      }
      var r := new CdsResource(handlerType, attr, par, opt);
      return Ok(r);
    }

    method Clone() returns (copy: CdsResource)
      requires View().Valid()
      ensures fresh(copy) && fresh(copy.attributes) && fresh(copy.parameters) && fresh(copy.options)
      ensures copy.View() == View()
    {
      var a := attributes.Clone();
      var p := parameters.Clone();
      var o := options.Clone();
      copy := new CdsResource(handlerType, a, p, o);
    }

    method Equals(other: CdsResource) returns (same: bool)
      ensures same <==>
        && handlerType == other.handlerType
        && SameMapping(attributes.elements, other.attributes.elements)
        && SameMapping(parameters.elements, other.parameters.elements)
        && SameMapping(options.elements, other.options.elements)
    {
      same := handlerType == other.handlerType;
      if same {
        same := attributes.Equals(other.attributes);
      }
      if same {
        same := parameters.Equals(other.parameters);
      }
      if same {
        same := options.Equals(other.options);
      }
    }
  }
}
