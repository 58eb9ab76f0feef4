# Task list store and task validator, in Dafny

This project models the two parts of a small JavaScript to-do list API that hold its logic:

- **The task store** (`models/tasks.js`). It keeps a module-level array of `{id, name, priority}` records. It also has a counter, held in a closure, that issues ids by pre-increment, so the first id is 1. It offers list-all, lookup by id, index lookup by id, create, update and delete. The model is the class `Tasks.TaskStore`. Its fields are `tasks: seq<Task>` and `counter: nat`, plus a ghost set `issued` of every id handed out so far. Its invariant `Valid()` says that ids strictly increase along the array and lie in `1..counter`, and that `issued` is exactly `1..counter`. Each mutating method keeps `Valid()` and states the whole new state. The read-only scans are loops proved against the recursive specification functions `IndexOf` (what `findIndex` yields) and `Lookup` (what `find` yields).
- **The task validator** (`validators/taskValidator.js`). It evaluates two Joi schemas. The model writes each schema down as data (`IdSchema`, `TaskSchema`) and evaluates it with a checker that reports the first rule broken. It then proves that on these two schemas the checker accepts exactly the values described by the hand-written predicates `IsPositiveInteger` and `IsValidTask`. Inputs are a JSON-like `JValue` whose numbers are exact rationals, so "is an integer" is `x == x.Floor as real`. Both validators return the input unchanged as `value`, with `error` absent on success and a message on failure.

The two test files are modelled as well: `TasksTests` replays the calls of `tests/tasks.test.js` on one store, and `TaskValidatorTests` states the cases of `tests/taskValidator.test.js` as lemmas.

The "invalid properties" case in `tests/taskValidator.test.js:40-43` passes `{}` to the validator on every iteration instead of the listed object. `TaskValidatorTests.UnknownKeysRejected` states the rejection of each listed object. It also states the rejection of an otherwise valid task that carries one extra key, the only one of these inputs that the closed key set alone refuses.

Files: `wrappers.dfy` (Option), `tasks.dfy`, `tasks_tests.dfy`, `task_validator.dfy`, `task_validator_tests.dfy`.

## Model

| member | source | states |
|---|---|---|
| `Tasks.IndexOf` | models/tasks.js:53-55 | the result is -1 exactly when no record has the id; otherwise it is a position holding the id with no match before it |
| `Tasks.Lookup` | models/tasks.js:44-46 | a found record is stored in the array and carries the id; absent means no stored record has the id |
| `Tasks.LookupAgreesWithIndexOf` | models/tasks.js:44-55 | the two lookups agree: `find` is absent exactly when `findIndex` is -1, and otherwise it is the record at that index |
| `Tasks.LookupAppend` | models/tasks.js:63-67 | appending a record keeps every earlier hit; the new record is found only for its own id when nothing earlier matches |
| `Tasks.LookupFindsMember` | models/tasks.js:8-22 | with ids unique (increasing), every stored record is what a lookup of its own id returns |
| `Tasks.NewRecordFound` | models/tasks.js:63-67 | the record made with id `counter + 1` keeps the store invariant, is found by its id, and leaves the lookup of every other id unchanged |
| `Tasks.RenamePreservesWellFormed` | models/tasks.js:77-84 | rewriting the name and priority of one record keeps ids increasing and within the counter |
| `Tasks.LookupAfterRename` | models/tasks.js:77-84 | after an update, the id finds the record with its new name and priority, and every other id finds what it found before |
| `Tasks.RemovePreservesWellFormed` | models/tasks.js:91-98 | splicing out one record keeps ids increasing and within the counter |
| `Tasks.MembersAfterRemove` | models/tasks.js:91-98 | after splicing out position i, the array holds exactly the other records |
| `Tasks.LookupAfterRemove` | models/tasks.js:91-98 | after a delete, the id finds nothing, and every other id finds what it found before |
| `Tasks.TaskStore.constructor` | models/tasks.js:8-9 | a new store has no tasks and a counter at 0, and keeps the invariant |
| `Tasks.TaskStore.CreateTask` | models/tasks.js:8-22 | the counter goes up by one and the record carries the new counter value; that id was never issued before |
| `Tasks.TaskStore.GetTasks` | models/tasks.js:35-37 | returns the stored records in insertion order, ids strictly increasing |
| `Tasks.TaskStore.GetTaskById` | models/tasks.js:44-46 | the loop returns the first record with the id, or absent |
| `Tasks.TaskStore.GetTaskIndexById` | models/tasks.js:53-55 | the loop returns the first position with the id, or -1 |
| `Tasks.TaskStore.NewTask` | models/tasks.js:63-67 | appends exactly one record with id `old counter + 1` and the given name and priority, leaves earlier entries alone, returns it, and never reuses an issued id |
| `Tasks.TaskStore.UpdateTask` | models/tasks.js:77-84 | a missing id returns absent and changes nothing; otherwise only the first match's name and priority change (same id, same position, same length) and the updated record is returned |
| `Tasks.TaskStore.DeleteTask` | models/tasks.js:91-98 | a missing id returns absent and changes nothing; otherwise exactly the first match is removed, the others keep their order, the removed record is returned, and the counter is unchanged |
| `TasksTests.InitialTasks` | tests/tasks.test.js:3-17 | a fresh store lists `[]`, finds nothing for id 0 and gives index -1 |
| `TasksTests.AddingTasks` | tests/tasks.test.js:19-42 | three `newTask` calls on a fresh store return ids 1, 2, 3 and the array lists them in order |
| `TasksTests.LookupsAfterAdding` | tests/tasks.test.js:44-70 | ids 1 to 3 find their records at indices 0 to 2; ids 0 and 4 find nothing and give -1 |
| `TasksTests.UpdatingTasks` | tests/tasks.test.js:73-97 | updates of ids 0 and 4 return absent; updates of 1, 2, 3 return the renamed records and the array lists them |
| `TasksTests.DeletingTasks` | tests/tasks.test.js:99-128 | deletes of 0 and 4 return absent; deletes of 1, 2, 3 return the records; a delete on the empty store returns absent and the array ends empty |
| `TasksTests.TaskLifecycle` | tests/tasks.test.js:1-128 | the whole file run in order on one store gives the results its expectations name |
| `TaskValidator.FirstNumberViolation` | validators/taskValidator.js:4 | no error exactly when every number rule holds |
| `TaskValidator.FirstStringViolation` | validators/taskValidator.js:5-6 | no error exactly when every string rule holds |
| `TaskValidator.CheckValue` | validators/taskValidator.js:4-6 | no error exactly when the value has the schema's base type and meets all its rules |
| `TaskValidator.CheckKeys` | validators/taskValidator.js:3-6 | no error exactly when every declared key is either present and valid, or absent and optional |
| `TaskValidator.CheckDependencies` | validators/taskValidator.js:7 | no error exactly when every `.with` key that is present has all its peers present |
| `TaskValidator.CheckObject` | validators/taskValidator.js:3-7 | no error exactly when the value is an object meeting every key rule, with no undeclared key, and every dependency |
| `TaskValidator.IdSchemaMeaning` | validators/taskValidator.js:22 | the id schema admits exactly the integers greater than 0 |
| `TaskValidator.TaskSchemaKeyNames` | validators/taskValidator.js:3-7 | the schema declares exactly the keys id, name and priority |
| `TaskValidator.TaskSchemaMeaning` | validators/taskValidator.js:3-7 | `taskSchema` admits exactly objects with only id, name, priority; an optional integer id above 0; a required 3-20 character alphanumeric name; and a required priority of low, normal or high |
| `TaskValidator.ValidateId` | validators/taskValidator.js:21-33 | the input is echoed as `value`; the error is absent exactly for an integer greater than 0 |
| `TaskValidator.ValidateTask` | validators/taskValidator.js:40-52 | the input is echoed as `value`; the error is absent exactly for a task object as `TaskSchemaMeaning` describes it |
| `TaskValidatorTests.ValidateIdRejects` | tests/taskValidator.test.js:4-11 | -1, 0 and 2.34 are refused and echoed |
| `TaskValidatorTests.ValidateIdAccepts` | tests/taskValidator.test.js:13-19 | 1, 2, 100 and 141431 are accepted and echoed |
| `TaskValidatorTests.UnknownKeysRejected` | tests/taskValidator.test.js:24-44 | the empty object, the objects with unknown keys, and a valid task with an extra key are refused |
| `TaskValidatorTests.WrongIdsRejected` | tests/taskValidator.test.js:46-66 | ids 0 and -1 in a task are refused and the task is echoed |
| `TaskValidatorTests.WrongNamesRejected` | tests/taskValidator.test.js:68-102 | a missing, numeric, 2-character, over-long or punctuated name is refused |
| `TaskValidatorTests.WrongPrioritiesRejected` | tests/taskValidator.test.js:104-128 | a missing, numeric or unlisted priority is refused |
| `TaskValidatorTests.IdRequiresNameAndPriority` | tests/taskValidator.test.js:130-152 | `{id}`, `{id, name}` and `{id, priority}` are refused |
| `TaskValidatorTests.ListedNamesValid` | tests/taskValidator.test.js:160 | "123", "abcdefghijklmnopqrst" and "Alphanuns123" are valid names |
| `TaskValidatorTests.ValidCombinationAccepted` | tests/taskValidator.test.js:155-181 | each of the 27 combinations of listed id, name and priority is accepted with no error and echoed |

## Left out

- Joi type conversion is not modelled. For example, Joi converts the string "5" to the number 5 and returns the converted value. Here a string is never a number, so `value` is always the input itself.
- The JavaScript value `undefined` is not modelled. Joi accepts a missing top-level value for a schema without `.required()`, and it treats a key whose value is `undefined` as absent. `JValue` has no such value.
- Joi's limits on unsafe integers, `NaN` and `Infinity` are not modelled, because `JNum` holds an exact rational.
- Error wording is not modelled. Each message is Joi's error type, such as `number.integer` or `any.required`, prefixed by the key for a key of an object.
- Which violation is reported first is the model's choice: base type, then the declared keys in order, then unknown keys, then `.with` dependencies. Joi's own order can differ; for example it checks `.valid(...)` before the base type. Acceptance does not depend on this order.
- String length counts characters, where JavaScript counts UTF-16 code units. This only differs for characters outside the Basic Multilingual Plane, and `.alphanum()` refuses those anyway.
- The loose equality `==` in the two lookups (models/tasks.js:45, 54) is modelled as equality of integer ids. Coercions such as `"1" == 1` are not modelled.
- Aliasing is not modelled. `getTasks` returns the live array, and `getTaskById` and `updateTask` return references to stored records. Here they return values. The in-place assignment in `updateTask` is modelled as replacing the record at the first-match index. `LookupAgreesWithIndexOf` shows this is the record `find` returns.
- Ids and the counter are unbounded integers. JavaScript's limit of 2^53 on exact integers is not modelled.
- Module wiring (`require`, `module.exports`), JSDoc type definitions, the Jest harness and `console.log` are not modelled.
