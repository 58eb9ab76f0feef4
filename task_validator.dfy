/**
 * The validators of validators/taskValidator.js. The Joi schemas they evaluate are written
 * down as data (ValueSchema, ObjectSchema) and evaluated by a checker that reports the first
 * violated rule; the lemmas show that on the two schemas of the file the checker accepts
 * exactly what the hand-written predicates IsPositiveInteger and IsValidTask describe.
 */
module TaskValidator {
  import opened Wrappers

  /** A JavaScript value as the validators receive it; numbers are exact rationals. */
  datatype JValue =
    | JNull
    | JBool(b: bool)
    | JNum(n: real)
    | JStr(s: string)
    | JArr(items: seq<JValue>)
    | JObj(fields: map<string, JValue>)

  /** What both validators return: the input, echoed, and an error message when it is refused. */
  datatype Validation = Validation(value: JValue, error: Option<string>)

  // ---------------------------------------------------------------------------
  // Schemas as data
  // ---------------------------------------------------------------------------

  /** The rules chained after `Joi.number()`: `.integer()` and `.greater(limit)`. */
  datatype NumberRule = Integer | Greater(limit: real)

  /** The rules chained after `Joi.string()`: `.min`, `.max`, `.alphanum()` and `.valid(...)`. */
  datatype StringRule = MinLength(min: nat) | MaxLength(max: nat) | Alphanum | OneOf(allowed: seq<string>)

  /** A schema for one scalar value: its base type and its rules, in the order they are chained. */
  datatype ValueSchema =
    | NumberSchema(numberRules: seq<NumberRule>)
    | StringSchema(stringRules: seq<StringRule>)

  /** Whether a key may be left out (the default) or was marked `.required()`. */
  datatype Presence = Optional | Required

  /** One entry of the keys passed to `Joi.object({...})`. */
  datatype KeySchema = KeySchema(key: string, schema: ValueSchema, presence: Presence)

  /** `.with(key, peers)`: when `key` is present, every peer must be present too. */
  datatype Dependency = With(key: string, peers: seq<string>)

  /** `Joi.object(keys).with(...)...`: only the declared keys are allowed. */
  datatype ObjectSchema = ObjectSchema(keys: seq<KeySchema>, dependencies: seq<Dependency>)

  // ---------------------------------------------------------------------------
  // What each rule means
  // ---------------------------------------------------------------------------

  predicate IsInteger(x: real) {
    x == x.Floor as real
  }

  /** The characters `.alphanum()` admits: ASCII letters and digits. */
  predicate IsAlphanumChar(c: char) {
    ('a' <= c <= 'z') || ('A' <= c <= 'Z') || ('0' <= c <= '9')
  }

  predicate NumberRuleHolds(rule: NumberRule, x: real) {
    match rule
    case Integer => IsInteger(x)
    case Greater(limit) => x > limit
  }

  predicate StringRuleHolds(rule: StringRule, s: string) {
    match rule
    case MinLength(min) => |s| >= min
    case MaxLength(max) => |s| <= max
    case Alphanum => forall i :: 0 <= i < |s| ==> IsAlphanumChar(s[i])
    case OneOf(allowed) => s in allowed
  }

  /** A value satisfies a scalar schema when it has the base type and meets every rule. */
  predicate ValueHolds(schema: ValueSchema, v: JValue) {
    match schema
    case NumberSchema(rules) =>
      v.JNum? && forall i :: 0 <= i < |rules| ==> NumberRuleHolds(rules[i], v.n)
    case StringSchema(rules) =>
      v.JStr? && v.s != "" && forall i :: 0 <= i < |rules| ==> StringRuleHolds(rules[i], v.s)
  }

  predicate KeyHolds(k: KeySchema, fields: map<string, JValue>) {
    if k.key in fields then ValueHolds(k.schema, fields[k.key]) else k.presence == Optional
  }

  function KeyNames(keys: seq<KeySchema>): set<string> {
    set k | k in keys :: k.key
  }

  predicate DependencyHolds(d: Dependency, fields: map<string, JValue>) {
    d.key in fields ==> forall p :: p in d.peers ==> p in fields
  }

  /** An object satisfies an object schema when every key rule, the closed key set and every
    * dependency hold. */
  predicate ObjectHolds(schema: ObjectSchema, v: JValue) {
    v.JObj? &&
    (forall i :: 0 <= i < |schema.keys| ==> KeyHolds(schema.keys[i], v.fields)) &&
    v.fields.Keys <= KeyNames(schema.keys) &&
    (forall i :: 0 <= i < |schema.dependencies| ==> DependencyHolds(schema.dependencies[i], v.fields))
  }

  // ---------------------------------------------------------------------------
  // The checker: the first violated rule, named by Joi's error type
  // ---------------------------------------------------------------------------

  function NumberRuleError(rule: NumberRule): string {
    match rule
    case Integer => "number.integer"
    case Greater(_) => "number.greater"
  }

  function StringRuleError(rule: StringRule): string {
    match rule
    case MinLength(_) => "string.min"
    case MaxLength(_) => "string.max"
    case Alphanum => "string.alphanum"
    case OneOf(_) => "any.only"
  }

  /** The first number rule the value breaks; none exactly when it meets them all. */
  function FirstNumberViolation(rules: seq<NumberRule>, x: real): (r: Option<string>)
    ensures r.None? <==> forall i :: 0 <= i < |rules| ==> NumberRuleHolds(rules[i], x)
  {
    if rules == [] then None
    else if !NumberRuleHolds(rules[0], x) then Some(NumberRuleError(rules[0]))
    else FirstNumberViolation(rules[1..], x)
  }

  /** The first string rule the value breaks; none exactly when it meets them all. */
  function FirstStringViolation(rules: seq<StringRule>, s: string): (r: Option<string>)
    ensures r.None? <==> forall i :: 0 <= i < |rules| ==> StringRuleHolds(rules[i], s)
  {
    if rules == [] then None
    else if !StringRuleHolds(rules[0], s) then Some(StringRuleError(rules[0]))
    else FirstStringViolation(rules[1..], s)
  }

  /** Base type first (a string schema also refuses the empty string), then the rules. */
  function CheckValue(schema: ValueSchema, v: JValue): (r: Option<string>)
    ensures r.None? <==> ValueHolds(schema, v)
  {
    match schema
    case NumberSchema(rules) =>
      if !v.JNum? then Some("number.base") else FirstNumberViolation(rules, v.n)
    case StringSchema(rules) =>
      if !v.JStr? then Some("string.base")
      else if v.s == "" then Some("string.empty")
      else FirstStringViolation(rules, v.s)
  }

  /** The declared keys, in declaration order: a missing required key, or a present key whose
    * value breaks its schema. */
  function CheckKeys(keys: seq<KeySchema>, fields: map<string, JValue>): (r: Option<string>)
    ensures r.None? <==> forall i :: 0 <= i < |keys| ==> KeyHolds(keys[i], fields)
  {
    if keys == [] then None
    else
      var k := keys[0];
      var first :=
        if k.key in fields then
          match CheckValue(k.schema, fields[k.key])
          case Some(e) => Some(k.key + ": " + e)
          case None => None
        else if k.presence == Required then Some(k.key + ": any.required")
        else None;
      if first.Some? then first else CheckKeys(keys[1..], fields)
  }

  /** The `.with` dependencies, in declaration order. */
  function CheckDependencies(deps: seq<Dependency>, fields: map<string, JValue>): (r: Option<string>)
    ensures r.None? <==> forall i :: 0 <= i < |deps| ==> DependencyHolds(deps[i], fields)
  {
    if deps == [] then None
    else if !DependencyHolds(deps[0], fields) then Some(deps[0].key + ": object.with")
    else CheckDependencies(deps[1..], fields)
  }

  /** Object type first, then the declared keys, then unknown keys, then the dependencies. */
  function CheckObject(schema: ObjectSchema, v: JValue): (r: Option<string>)
    ensures r.None? <==> ObjectHolds(schema, v)
  {
    if !v.JObj? then Some("object.base")
    else
      var keysError := CheckKeys(schema.keys, v.fields);
      if keysError.Some? then keysError
      else if !(v.fields.Keys <= KeyNames(schema.keys)) then Some("object.unknown")
      else CheckDependencies(schema.dependencies, v.fields)
  }

  // ---------------------------------------------------------------------------
  // The schemas of validators/taskValidator.js and the two validators
  // ---------------------------------------------------------------------------

  /** `Joi.number().integer().greater(0)` */
  const IdSchema: ValueSchema := NumberSchema([Integer, Greater(0.0)])

  /** `Joi.string().min(3).max(20).alphanum()` */
  const NameSchema: ValueSchema := StringSchema([MinLength(3), MaxLength(20), Alphanum])

  /** `Joi.string().valid("low", "normal", "high")` */
  const PrioritySchema: ValueSchema := StringSchema([OneOf(["low", "normal", "high"])])

  /** `taskSchema`: optional id, required name and priority, and id needing both of the others. */
  const TaskSchema: ObjectSchema :=
    ObjectSchema(
      [KeySchema("id", IdSchema, Optional),
       KeySchema("name", NameSchema, Required),
       KeySchema("priority", PrioritySchema, Required)],
      [With("id", ["name", "priority"])])

  /** The ids the file accepts, stated directly: an integer strictly greater than 0. */
  predicate IsPositiveInteger(v: JValue) {
    v.JNum? && v.n == v.n.Floor as real && v.n > 0.0
  }

  /** A name the file accepts: 3 to 20 ASCII letters and digits. */
  predicate IsValidName(v: JValue) {
    v.JStr? && 3 <= |v.s| <= 20 && forall i :: 0 <= i < |v.s| ==> IsAlphanumChar(v.s[i])
  }

  /** A priority the file accepts. */
  predicate IsValidPriority(v: JValue) {
    v == JStr("low") || v == JStr("normal") || v == JStr("high")
  }

  /** A task object the file accepts, stated directly. */
  predicate IsValidTask(v: JValue) {
    v.JObj? &&
    v.fields.Keys <= {"id", "name", "priority"} &&
    ("id" in v.fields ==> IsPositiveInteger(v.fields["id"])) &&
    "name" in v.fields && IsValidName(v.fields["name"]) &&
    "priority" in v.fields && IsValidPriority(v.fields["priority"])
  }

  /** `validateId`: echoes the input; no error exactly for an integer greater than 0. */
  function ValidateId(id: JValue): (r: Validation)
    ensures r.value == id
    ensures r.error.None? <==> IsPositiveInteger(id)
  {
    IdSchemaMeaning(id);
    Validation(id, CheckValue(IdSchema, id))
  }

  /** `validateTask`: echoes the input; no error exactly for an object IsValidTask describes. */
  function ValidateTask(task: JValue): (r: Validation)
    ensures r.value == task
    ensures r.error.None? <==> IsValidTask(task)
  {
    TaskSchemaMeaning(task);
    Validation(task, CheckObject(TaskSchema, task))
  }

  /** The declared key set of `taskSchema`. */
  lemma TaskSchemaKeyNames()
    ensures KeyNames(TaskSchema.keys) == {"id", "name", "priority"}
  {
    var keys := TaskSchema.keys;
    assert keys[0].key == "id" && keys[1].key == "name" && keys[2].key == "priority";
    assert keys[0] in keys && keys[1] in keys && keys[2] in keys;
  }

  /** On `taskSchema`, the generic object rule means exactly IsValidTask. */
  lemma TaskSchemaMeaning(v: JValue)
    ensures ObjectHolds(TaskSchema, v) <==> IsValidTask(v)
  {
    TaskSchemaKeyNames();
    if v.JObj? {
      var keys := TaskSchema.keys;
      var f := v.fields;
      assert (forall i :: 0 <= i < |keys| ==> KeyHolds(keys[i], f)) <==>
        KeyHolds(keys[0], f) && KeyHolds(keys[1], f) && KeyHolds(keys[2], f);
      if "name" in f {
        var nameRules := NameSchema.stringRules;
        assert ValueHolds(NameSchema, f["name"]) <==> IsValidName(f["name"]) by {
          if f["name"].JStr? {
            assert (forall i :: 0 <= i < |nameRules| ==> StringRuleHolds(nameRules[i], f["name"].s)) <==>
              StringRuleHolds(nameRules[0], f["name"].s) && StringRuleHolds(nameRules[1], f["name"].s) &&
              StringRuleHolds(nameRules[2], f["name"].s);
          }
        }
      }
      if "priority" in f {
        var priorityRules := PrioritySchema.stringRules;
        assert ValueHolds(PrioritySchema, f["priority"]) <==> IsValidPriority(f["priority"]) by {
          if f["priority"].JStr? {
            assert (forall i :: 0 <= i < |priorityRules| ==> StringRuleHolds(priorityRules[i], f["priority"].s)) <==>
              StringRuleHolds(priorityRules[0], f["priority"].s);
          }
        }
      }
      if "id" in f {
        IdSchemaMeaning(f["id"]);
      }
    }
  }

  /** On the id schema, the generic scalar rule means exactly IsPositiveInteger. */
  lemma IdSchemaMeaning(v: JValue)
    ensures ValueHolds(IdSchema, v) <==> IsPositiveInteger(v)
  {
    var rules := IdSchema.numberRules;
    if v.JNum? {
      assert (forall i :: 0 <= i < |rules| ==> NumberRuleHolds(rules[i], v.n)) <==>
        NumberRuleHolds(rules[0], v.n) && NumberRuleHolds(rules[1], v.n);
    }
  }
}
