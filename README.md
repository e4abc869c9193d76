# hstools in Dafny

A model of the core logic of `hstools`, a set of command-line tools and a
session class that work with HydroShare, a service for publishing and
sharing hydrology resources (datasets, models, notebooks). The model covers:

- the `hydroshare` session class (`hstools/hydroshare.py`), modelled as the
  Dafny class `Session.HydroShare`. Its fields are the download directory,
  the client handle and the content map (content file name to local path).
  It covers:
  - construction, with its choice of download directory and its
    authentication fallback;
  - resource creation, with type validation, derived resources and the
    content-file plan;
  - the sequential upload loop;
  - `getResource` with its overwrite prompt and content-map merge;
  - `loadResourceFromLocal` and `getContentPath`.
- the `ls` command (`hstools/funcs/ls.py`):
  - filter parsing and accumulation;
  - the listing query's arguments;
  - the listing loop (count cut-off, size tag, short titles);
  - the usage line.
- the `describe` command's loop (`hstools/funcs/describe.py`): the
  public-attribute projection and the short format, which keeps five keys
  and joins authors and creator names with `;`.

The remote service is not modelled as code. `Remote.Service` describes how it
answers:
- the resource types it lists;
- the metadata of each resource;
- the id a create request returns;
- the files it refuses;
- the resources it lets the user download.

Every session method returns the `Remote.Call`s it sends, so the order of
requests can be stated, and so can the absence of a request. The following
are parameters:
- the file system: `os.path.exists` as a set of existing paths, `glob` as a
  function, and `abspath` and the relative-path trimming as functions;
- the overwrite prompt's answer;
- the credential readers' results;
- the clock.

The Python string built-ins the code relies on are written out in `Text`:
- `upper`/`lower`;
- `split` on one character;
- `join`;
- substring `in`;
- `os.path.basename`;
- POSIX `os.path.join`.

Module layout: `Wrappers` (Option, Result), `Text`, `Remote`, `Session`,
`Ls`, `Describe`.

Where the code and the documented design differ, the model follows the
code:
- the constructor does not fail when no credentials work (the client stays
  None);
- `createResource` returns None in every branch, and never checks that the
  content files exist (the model reports which branch was taken as a
  `CreateStatus`);
- `getResource` returns None, not a path;
- `loadResourceFromLocal` leaves the content map untouched when no
  resource directory is found.

Lines 239-240 of `hstools/hydroshare.py` have unbalanced brackets; the
comment at line 238 only says that two search paths are needed. The model
reads the two paths and their order off those two lines as evidently
intended: the resource's own `data/contents` first, then the directory's
`data/contents`.

## Model

| member | source | states |
|---|---|---|
| Session.MissingDirectoryMessageSaysSo | hstools/hydroshare.py:33-36 | the error raised for a missing download directory contains "does not exist" |
| Session.HydroShare.Open | hstools/hydroshare.py:21-44 | the directory is `save_dir`, else `JUPYTER_DOWNLOADS`, else `.`; if it does not exist the result is the error and no credential reader is tried; otherwise OAuth2 is tried first and basic only when OAuth2 gives nothing; the client is the first handle found, or None without error; the content map starts empty |
| Session.HydroShare.AddContentToExistingResource | hstools/hydroshare.py:46-48 | one upload request per file, in order, up to and including the first refused file; the files before it stay uploaded; without a client the first upload raises before any request |
| Session.FirstRejected | hstools/hydroshare.py:46-48 | the index of the first refused file: all files before it are accepted, and it is refused (or the end) |
| Session.HydroShare.Metadata | hstools/hydroshare.py:50-62 | the metadata is available exactly when there is a client and the service knows the resource, and is then the service's |
| Session.TypeTableEntries | hstools/hydroshare.py:85 | every entry of the type table is a server type filed under its own lower case |
| Session.TypeTableCovers | hstools/hydroshare.py:85 | every server type is in the table under its lower-cased name |
| Session.TypeTableLastWins | hstools/hydroshare.py:85 | when types lower-case alike, the later one is kept |
| Session.TypeMatchIsLowerCase | hstools/hydroshare.py:85-91 | a requested type matches exactly when some server type lower-cases to it, so only an all-lower-case name can match |
| Session.DefaultTypeNeverMatches | hstools/hydroshare.py:85-91 | the default `GenericResource` never matches, whatever types the server lists |
| Session.DeriveSpec | hstools/hydroshare.py:93-114 | deriving succeeds exactly when the parent has a string abstract and a list of hashable keywords; the new abstract is the parent's, the modification note, then the given one; the keywords are the union of the given and the parent's |
| Session.HydroShare.CreateResource | hstools/hydroshare.py:64-138 | no client: raises with no request; unknown type: returns after the type query only; unreadable parent: returns after the lookups with no create request; otherwise one create request with the matched server type, the title, the first content file (or none) and the original or derived abstract and keywords; after a successful create, files 2..n are uploaded up to the first refusal, and a refusal does not fail the method |
| Session.ContentMapKeys | hstools/hydroshare.py:190-199 | the keys of a content map are exactly the base names of its files |
| Session.ContentMapLastWins | hstools/hydroshare.py:190-199 | a base name maps to the path of the last file with that base name |
| Session.HydroShare.IndexContent | hstools/hydroshare.py:190-199 | the loop adding files one by one yields the content map of all files seen |
| Session.HydroShare.GetResource | hstools/hydroshare.py:140-202 | an existing folder with any answer but `n` is removed and downloaded again; `n` skips the download; a failed download leaves the content map unchanged; otherwise the downloaded files' map is merged over the old content map |
| Session.MergeKeepsUnrelated | hstools/hydroshare.py:201-202 | merging keeps every entry whose base name none of the new files has |
| Session.HydroShare.LoadResourceFromLocal | hstools/hydroshare.py:222-257 | without a resource directory the content map is unchanged; otherwise it is replaced by the map of the files of both search paths, in order |
| Session.SecondSearchPathWins | hstools/hydroshare.py:244-252 | a file of the second search path overrides a file of the first with the same base name |
| Session.ContentPath | hstools/hydroshare.py:273-285 | a content path exists exactly when the resource directory was found |
| Session.ContentPathIsFirstSearchPath | hstools/hydroshare.py:273-285 | for an ordinary id, the content path plus `*` is the first search path of `loadResourceFromLocal` |
| Ls.Lookup | hstools/funcs/ls.py:10-19 | a key finds the filter whose name is the key upper-cased, and none when no filter has that name |
| Ls.LookupIgnoresCase | hstools/funcs/ls.py:36 | a key and its upper case find the same filter |
| Ls.ParseFilterShape | hstools/funcs/ls.py:32-40 | a parsed filter is a one-entry map keyed by a filter value |
| Ls.ParseFilterNeedsOneEquals | hstools/funcs/ls.py:35-40 | an argument without `=`, or with two or more, is invalid |
| Ls.ParseFilterOfPair | hstools/funcs/ls.py:35-37 | `key=value` gives the key's filter value mapped to the value verbatim (even empty), or None when the key names no filter |
| Ls.ParseFilterTextExample | hstools/funcs/ls.py:32-37 | `text=x` gives `{full_text_search: x}` |
| Ls.ParseFilterEditableExample | hstools/funcs/ls.py:32-37 | `Editable=y` gives `{edit_permission: y}` |
| Ls.EmptyKeyIsInvalid | hstools/funcs/ls.py:35-40 | an empty key is invalid |
| Ls.CollectFilters | hstools/funcs/ls.py:129-136 | exit status 1 exactly when the arguments do not all parse; otherwise the filters merged in order |
| Ls.AccumulateFailsForGood | hstools/funcs/ls.py:131-136 | once a prefix of the arguments is invalid, the whole list is |
| Ls.AccumulateFailsIff | hstools/funcs/ls.py:131-136 | the filters are rejected exactly when some argument is invalid |
| Ls.AccumulateKeys | hstools/funcs/ls.py:131-134 | only filter values become keys of the filter map |
| Ls.AccumulateLastWins | hstools/funcs/ls.py:131-134 | a later filter for the same keyword overrides an earlier one |
| Ls.QueryArgs | hstools/funcs/ls.py:47-52 | the query has `owner` and `count` plus the filter keys; every filter is applied over the defaults; without overrides the owner is the user and the page size is 25 |
| Ls.QueryOfFilters | hstools/funcs/ls.py:50-52 | for filter maps, the page size is always 25 and an `owner` filter replaces the user |
| Ls.TotalSize | hstools/funcs/ls.py:64-66 | the size loop computes the sum of the file sizes |
| Ls.SumNonnegative | hstools/funcs/ls.py:64-66 | non-negative file sizes add up to a non-negative total, which is zero exactly when every file is |
| Ls.Tag | hstools/funcs/ls.py:70-75 | a positive total gives a size, a negative one `[ERROR]`, zero `[?]` |
| Ls.SizeTagRules | hstools/funcs/ls.py:61-75 | without the size flag the tag is `[?]`; an unreadable listing gives `[ERROR]`; a readable one gives a size exactly when some file is non-empty, else `[?]` |
| Ls.ShortTitle | hstools/funcs/ls.py:78-79 | the short title is 28 characters: the title's first 25 padded with spaces, then `...` if the title is longer than 25 and three spaces otherwise |
| Ls.ShortTitleOfShortTitle | hstools/funcs/ls.py:78-79 | a title of at most 25 characters is shown whole, followed by spaces up to the column width |
| Ls.ShortTitleOfLongTitle | hstools/funcs/ls.py:78-79 | a longer title is cut to 25 characters followed by `...` |
| Ls.Shown | hstools/funcs/ls.py:53-58 | nothing is printed for a count of 0 or less; otherwise at most `count`, and fewer only when fewer resources exist |
| Ls.PrintResourceList | hstools/funcs/ls.py:43-86 | the query arguments; one entry per resource in order, with its size tag and short or long form; exactly as many as the count allows; the loop draws one resource past the last printed when more exist |
| Ls.SetUsage | hstools/funcs/ls.py:89-104 | the usage line is `%(prog)s `, the positionals, a space, then the optional part |
| Ls.OptionalsStep | hstools/funcs/ls.py:92-99 | an option without strings is skipped; a first string with `--` is appended, any other prepended |
| Ls.OptionalsOrder | hstools/funcs/ls.py:91-99 | the optional part is the options without `--` in reverse order, then the `--` options in order |
| Ls.OptionalsArePartition | hstools/funcs/ls.py:91-99 | the optional part holds exactly the bracketed first strings, none lost or added |
| Describe.Public | hstools/funcs/describe.py:71 | the attributes kept are exactly those not starting with `_`, with their values |
| Describe.LongFormIsPublic | hstools/funcs/describe.py:71 | the long format succeeds and keeps exactly the attributes not starting with `_` |
| Describe.FirstAbsent | hstools/funcs/describe.py:80 | the first short key absent from the attributes |
| Describe.ShortFormKeys | hstools/funcs/describe.py:74-80 | the short format fails with a missing key exactly when one of the five is absent, naming the first; on success it has exactly the five keys |
| Describe.TypeOf | hstools/funcs/describe.py:83-85 | a metadata value's type is never `type`, so the cleaning test never holds |
| Describe.ShortFormKeepsValues | hstools/funcs/describe.py:82-85 | abstract, creation date and title come out unchanged |
| Describe.Strings | hstools/funcs/describe.py:88 | joining succeeds exactly when every item is a string |
| Describe.AuthorsRoundTrip | hstools/funcs/describe.py:88 | authors without `;` are joined in order: splitting on `;` gives them back |
| Describe.CreatorNames | hstools/funcs/describe.py:90-92 | succeeds exactly when every creator has a `name`, and then gives each creator's `name` in order |
| Describe.CreatorsRoundTrip | hstools/funcs/describe.py:90-93 | the creators' names without `;` are joined in order: splitting on `;` gives them back |
| Describe.Shorten | hstools/funcs/describe.py:73-93 | the projection, the cleaning loop, the authors join and the creator loop compute the short format |
| Describe.Describe | hstools/funcs/describe.py:68-107 | one result per id, in input order; a failing id gives its error and the others are still described |

## Left out

- `humansize` (hstools/funcs/ls.py:22-29) uses float division and `%.2f` formatting; a size tag carries the byte count instead of its text.
- Printed text, HTML snippets, the `yaml.dump` and `json.dumps` output of `describe`, and the separator lines are not modelled.
- The credential readers in `hstools/auth.py` (file reads, JSON and pickle decoding, the identity check) are not part of this model. Each reader is an `Option<Handle>` input to `Open`.
- `threads.runThreadedFunction` only shows a progress indicator; each call is modelled as the direct call it wraps.
- The REST client (`hs_restclient`) is not modelled. Its answers are the `Service` value, and its listing query's result is the `resources` parameter of `PrintResourceList`.
- `glob`, `os.path.exists`, `os.path.abspath`, `shutil.rmtree`, the relative-path trimming (hstools/hydroshare.py:195-197) and `input()` are parameters or returned values. Files are not actually removed.
- `utilities.find_resource_directory` and `utilities.get_hs_content` are not part of this model. The resource directory is a parameter, and `getContentFiles` only forwards to the latter.
- `getResourceMetadata` combines a system and a science metadata fetch into one object; the model fetches one attribute map.
- Upper- and lower-casing act on ASCII letters only. Python's full Unicode case mapping (for example `'ſ'.upper() == 'S'`) is not modelled.
- Describe.Iterate: iterating a non-empty dictionary (authors or creators given as a dictionary) depends on key insertion order, which the attribute map does not keep; the model treats it as a failure.
- Session.Derive: the timestamp of the modification note is a parameter (`now`), not the clock.
- The argparse parser is abstracted as the option strings of each optional action and the names of the positional ones; `add_arguments` and the argparse internals are not modelled.
- `hstools/funcs/delete.py` is not part of this model.
- The session construction and user lookup in `ls`'s `main` (hstools/funcs/ls.py:138-143) are not modelled; the user name, the count and the flags are parameters of `PrintResourceList`.
