/** The checks and views of the `Config` class in config.py. The environment
    is read once, at import time; here the class attributes are the input
    `attrs`, in the order `vars(cls)` lists them. */
module Configuration {
  import opened Common

  /** The kinds of attribute value `get_all` tells apart. */
  datatype AttrValue =
    | StrValue(s: string)
    | IntValue(i: int)
    | FloatValue(f: real)
    | BoolValue(b: bool)
    | DictValue(entries: map<string, real>)
    | NoneValue
    | Callable(name: string)

  /** `DEFAULT_PERSONALITY`. */
  const DefaultPersonality: map<string, real> := map["sass_level" := 0.8, "trend_awareness" := 0.7, "memory_usage" := 0.3]

  /** The names `validate` requires. */
  const RequiredVars: seq<string> := ["BLUESKY_HANDLE", "BLUESKY_PASSWORD"]

  /** Python truthiness of an attribute value. */
  predicate TruthyValue(v: AttrValue)
  {
    match v
    case StrValue(s) => s != ""
    case IntValue(i) => i != 0
    case FloatValue(f) => f != 0.0
    case BoolValue(b) => b
    case DictValue(entries) => entries != map[]
    case NoneValue => false
    case Callable(_) => true
  }

  /** `getattr(cls, var)`; an attribute that does not exist raises, and is
      reported here as None. */
  function Lookup(attrs: seq<(string, AttrValue)>, name: string): AttrValue
  {
    if attrs == [] then NoneValue
    else if attrs[0].0 == name then attrs[0].1
    else Lookup(attrs[1..], name)
  }

  /** The required names whose value is falsy, in the order they are listed. */
  function Missing(required: seq<string>, attrs: seq<(string, AttrValue)>): (r: seq<string>)
    ensures |r| <= |required|
    ensures forall x :: x in r <==> x in required && !TruthyValue(Lookup(attrs, x))
  {
    if required == [] then []
    else (if TruthyValue(Lookup(attrs, required[0])) then [] else [required[0]]) + Missing(required[1..], attrs)
  }

  /** Missing names keep the order of the list they come from. */
  lemma {:induction false} MissingIsSubsequence(required: seq<string>, attrs: seq<(string, AttrValue)>)
    ensures Missing(required, attrs) == Filter(required, (x: string) => !TruthyValue(Lookup(attrs, x)))
  {
    if required != [] {
      MissingIsSubsequence(required[1..], attrs);
    }
  }

  const MissingPrefix: string := "Missing required configuration: "

  /** `validate`: True when every required value is truthy, otherwise the
      ValueError that names the missing ones, joined by ", ". */
  function Validate(attrs: seq<(string, AttrValue)>): (r: Result<bool>)
    ensures r.Ok? ==> r.value
    ensures r.Ok? <==> forall x :: x in RequiredVars ==> TruthyValue(Lookup(attrs, x))
    ensures r.Err? ==> r.error == MissingPrefix + Join(Missing(RequiredVars, attrs), ", ")
  {
    var missing := Missing(RequiredVars, attrs);
    if missing != [] then
      assert missing[0] in missing;
      Err(MissingPrefix + Join(missing, ", "))
    else
      Ok(true)
  }

  /** With neither credential set, the message names both, handle first. */
  lemma ValidateNamesBoth(attrs: seq<(string, AttrValue)>)
    requires !TruthyValue(Lookup(attrs, "BLUESKY_HANDLE")) && !TruthyValue(Lookup(attrs, "BLUESKY_PASSWORD"))
    ensures Validate(attrs) == Err(MissingPrefix + "BLUESKY_HANDLE" + ", " + "BLUESKY_PASSWORD")
  {
    var h, p := "BLUESKY_HANDLE", "BLUESKY_PASSWORD";
    assert RequiredVars == [h, p] && RequiredVars[1..] == [p] && [p][1..] == [];
    assert Missing([p], attrs) == [p];
    assert Missing(RequiredVars, attrs) == [h, p];
    assert Join([h, p], ", ") == h + ", " + Join([p], ", ");
  }

  /** The attribute kinds `get_all` keeps: str, int, float, bool and dict. */
  predicate Exported(kv: (string, AttrValue))
  {
    !StartsWith(kv.0, "_") && (kv.1.StrValue? || kv.1.IntValue? || kv.1.FloatValue? || kv.1.BoolValue? || kv.1.DictValue?)
  }

  /** `get_all`: the public attributes with a plain value, in attribute order. */
  function GetAll(attrs: seq<(string, AttrValue)>): (r: seq<(string, AttrValue)>)
    ensures forall kv :: kv in r <==> kv in attrs && Exported(kv)
    ensures forall k :: 0 <= k < |r| ==> !StartsWith(r[k].0, "_") && !r[k].1.NoneValue? && !r[k].1.Callable?
  {
    Filter(attrs, Exported)
  }

  /** Private names and non-plain values never show up, whatever else the
      class holds. */
  lemma GetAllDropsPrivate(attrs: seq<(string, AttrValue)>, v: AttrValue)
    ensures ("_doc", v) !in GetAll(attrs)
    ensures forall name :: (name, NoneValue) !in GetAll(attrs)
  {
    assert StartsWith("_doc", "_");
  }

  /** The state of `config/personality.json`. */
  datatype PersonalityFile = Absent | Unreadable(error: string) | Loaded(settings: map<string, real>)

  /** `load_personality`: the file's settings, or the defaults when it is
      absent or fails to load. */
  function LoadPersonality(file: PersonalityFile): (r: map<string, real>)
    ensures file.Loaded? ==> r == file.settings
    ensures !file.Loaded? ==> r == DefaultPersonality
    ensures !file.Loaded? ==> r["sass_level"] == 0.8 && |r| == 3
  {
    if file.Loaded? then file.settings else DefaultPersonality
  }
}
