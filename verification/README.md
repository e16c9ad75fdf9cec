# Self-service user mutation boundary — a Dafny model

This project models the self-service part of the user controller of the Elhakim
Node service (`controllers/userController.js`):

- `filterObj`, which copies only allow-listed fields from a request body;
- `multerFilter` and the `upload.fields` slot configuration (`photo`, `cv`,
  `licensedID`, one file each), which decide whether an upload is accepted;
- `updateMe`, which refuses password changes, builds the filtered patch
  (`name`, `email`, plus `photo` when a file came with the request) and merges
  it into the caller's own record;
- `deleteMe`, which soft-deletes the caller by setting `active` to false;
- `getMe`, which points `req.params.id` at the caller.

Modules:

- `Wrappers`: `Option` and `Result`.
- `AppErrors`: the message and status code of an AppError.
- `JsValues`: body values, JavaScript truthiness, property lookup and `startsWith`.
- `FilterObject`: `filterObj` as a loop (`FilterObj`) and as a function (`Filtered`).
- `Upload`: the file predicate and multer's per-field allowance rule, as pure functions over the file parts of one request.
- `UserStore`: the record store as a class whose `records` map is updated in place by `FindByIdAndUpdate`. `Committed` is the merge it performs.
- `UserController`: a `Request` class, the `Patch` specification and the three handlers as methods.

Inputs from outside the controller are explicit. The caller's id is `Request.userId`.
The uploaded file's name is `Request.upload`. The schema's update validators
are an opaque per-field predicate, `Store.validate`. `Store.Violations` defines
the validation step on top of it: the set of patch fields whose validator
refuses the new value. The contracts of `FindByIdAndUpdate` and `UpdateMe`
decide on that set.

Two behaviours of the code are worth stating:

- A credential field is refused only when its value is truthy. `{password: ""}` passes, and the field is dropped by the filter (`EmptyPasswordNotRefused`).
- The image-only predicate is installed on the whole upload. So it applies to `cv` and `licensedID` as well as `photo` (`PdfCvRejected`).

## Model

| member | source | states |
|---|---|---|
| `JsValues.StartsWith` | Node--Elhakim-main/controllers/userController.js:12 | `startsWith` holds exactly when the prefix fits in the string and the string's leading characters equal it |
| `FilterObject.Filtered` | Node--Elhakim-main/controllers/userController.js:65-71 | the filtered object's key set is exactly the object's keys that occur in the allow-list, and each kept key has the object's own value |
| `FilterObject.FilterObj` | Node--Elhakim-main/controllers/userController.js:65-71 | the key-by-key loop that inserts allowed keys into a fresh object produces exactly `Filtered`, whatever order the keys are visited in |
| `FilterObject.FilteredIsSubMap` | Node--Elhakim-main/controllers/userController.js:66-68 | filtering never adds a key absent from the object and never changes a value |
| `FilterObject.FilteredIdempotent` | Node--Elhakim-main/controllers/userController.js:65-71 | filtering an already filtered object with the same allow-list yields the same object |
| `FilterObject.FilteredBySetOfFields` | Node--Elhakim-main/controllers/userController.js:68 | `includes` makes the filter depend on the allow-list only as a set: order and repeats do not matter |
| `Upload.MulterFilter` | Node--Elhakim-main/controllers/userController.js:11-17 | a file is accepted iff its MIME type begins with "image"; otherwise acceptance is false and the error is the 400 "Not an image! Please upload only images." |
| `Upload.Receive` | Node--Elhakim-main/controllers/userController.js:19-28 | the `upload.fields` middleware (allowance check first, then `multerFilter`, first error ends the request) succeeds iff the parts are admissible, and a refusal carries the error of the first part that breaks admissibility; stated through `ReceiveFromAccepts` and `ReceiveFromFirstFailure` |
| `Upload.ReceiveFromFirstFailure` | Node--Elhakim-main/controllers/userController.js:19-28 | a refused upload fails at the first part that breaks admissibility: LIMIT_UNEXPECTED_FILE when that part's field name is over its allowance, the 400 "Not an image!" error otherwise |
| `Upload.ReceiveFromErrorKinds` | Node--Elhakim-main/controllers/userController.js:11-28 | a refused upload ends either in the 400 "Not an image!" error or in LIMIT_UNEXPECTED_FILE for a field name that was submitted |
| `Upload.ReceiveFromAccepts` | Node--Elhakim-main/controllers/userController.js:19-28 | an upload goes through iff every part is an image and no field name is used more often than its remaining allowance, whatever the order of the failing parts |
| `Upload.ReceiveFromFilesAt` | Node--Elhakim-main/controllers/userController.js:24-28 | on success each field name holds exactly the parts submitted under it, in order, and only names that received a part appear |
| `Upload.UserAllowances` | Node--Elhakim-main/controllers/userController.js:24-28 | the slot configuration allows `photo`, `cv` and `licensedID` once each and no other field name |
| `Upload.UserUploadAccepted` | Node--Elhakim-main/controllers/userController.js:11-28 | a user upload is accepted iff every part is under `photo`, `cv` or `licensedID`, is an image, and no slot is used twice |
| `Upload.UserUploadSlots` | Node--Elhakim-main/controllers/userController.js:24-28 | after an accepted upload each filled slot is one of the three and holds exactly one image part submitted under that slot |
| `Upload.PlainTextPhotoRejected` | Node--Elhakim-main/controllers/userController.js:11-17 | a `text/plain` file under `photo` fails the request with the 400 "Not an image!" error and keeps no file |
| `Upload.PdfCvRejected` | Node--Elhakim-main/controllers/userController.js:19-28 | the image predicate covers every slot, so a PDF under `cv` is refused too |
| `Upload.SecondPhotoRejected` | Node--Elhakim-main/controllers/userController.js:25 | a second file under `photo` exceeds its maxCount of 1 and fails as an unexpected field |
| `UserStore.Committed` | Node--Elhakim-main/controllers/userController.js:94 | a partial update adds or overwrites exactly the patch's fields on the given id's record, keeps its other fields and every other record, and changes nothing for an unknown id |
| `UserStore.CommitIdempotent` | Node--Elhakim-main/controllers/userController.js:108 | applying the same partial update twice is the same as applying it once |
| `UserStore.CommitsIsolated` | Node--Elhakim-main/controllers/userController.js:94 | two successive updates of one caller leave every other caller's record as it was |
| `UserStore.DeactivationEffect` | Node--Elhakim-main/controllers/userController.js:107-108 | soft delete sets `active` to false, keeps the record's other fields and other users' records, and is idempotent |
| `UserStore.Store.FindByIdAndUpdate` | Node--Elhakim-main/controllers/userController.js:94-97 | with validators on and a refused field, nothing is written and a ValidationError is returned; otherwise the records become `Committed` and the updated record (none for an unknown id) is returned |
| `UserController.Patch` | Node--Elhakim-main/controllers/userController.js:80-91 | refused with the 400 password-route error iff `password` or `passwordConfirm` is truthy; otherwise the keys are within {name, email, photo}, name and email are copied from the body unchanged, and `photo` is present iff a file came with the request, holding its filename |
| `UserController.PatchKeepsProtectedFields` | Node--Elhakim-main/controllers/userController.js:89-91 | an accepted patch never carries `password`, `passwordConfirm`, `role` or `active`, whatever the body holds |
| `UserController.EmptyPasswordNotRefused` | Node--Elhakim-main/controllers/userController.js:80 | an empty-string password is falsy, so the request is not refused and the field is dropped |
| `UserController.GetMe` | Node--Elhakim-main/controllers/userController.js:73-76 | `params.id` becomes the caller's id; every other parameter is kept |
| `UserController.UpdateMe` | Node--Elhakim-main/controllers/userController.js:78-105 | a credential attempt returns the 400 error and writes nothing; a refused field returns the validation error and writes nothing; otherwise `Patch` is merged into the caller's own record only and the updated record is returned |
| `UserController.DeleteMe` | Node--Elhakim-main/controllers/userController.js:107-114 | the store becomes the soft-deleted form of the old store for the caller's id, with no validation and no other record touched |

## Left out

- `resizeUserPhotos` (commented out): image decoding, resizing and JPEG encoding are library calls, and its filenames depend on the wall clock.
- Multipart parsing and in-memory buffering: the model starts from the file parts of one request, in stream order. It also leaves out the parser's own limits and its skipping of parts without a filename.
- A field configured without `maxCount` (unlimited) is not modelled. Every field of this configuration has a maxCount.
- The wiring between upload and update: `updateMe` reads `req.file` while `upload.fields` fills `req.files`, and memory storage sets no `filename`. The model takes the single uploaded file's name as the explicit input `Request.upload`.
- models/userModel.js is not part of this model. Its schema strictness, casting, query middleware (for example hiding inactive users) and the content of its validators are left out; validators are an opaque per-field predicate.
- `UserStore.Store.FindByIdAndUpdate`: always returns the post-update record (`new: true`). For `deleteMe` that return value is not used.
- `catchAsync` and the async suspension points: the handlers run to completion in one step.
- HTTP response shaping (`res.status(...).json(...)`, statuses 200 and 204) and `createUser`, which only sends a constant 500 response.
- The `next()` continuation of `getMe`.
- The factory handlers `getUser`, `getAllUsers`, `updateUser` and `deleteUser`. They delegate to controllers/handlerFactory.js, which is not part of this model.
- JavaScript object key order and the special `__proto__` key: bodies are unordered maps from string keys.
- Floating-point numbers and NaN: body numbers are reals, and truthiness tests them against zero.
