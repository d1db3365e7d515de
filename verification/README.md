# Bilingual résumé: language preference and résumé projection

This project models the two parts of the bilingual (English/Spanish) résumé
site that hold logic.

- **The language preference provider** (`LanguageContext`) holds one language
  cell. It is initialised from the browser's local storage under the key
  `resume-language`. If storage gives nothing, it falls back to the caller's
  `initialLanguage` and then to `"en"`. After every change the cell is written
  back to storage and mirrored into the document's `lang` attribute. It
  offers `setLanguage` and `toggleLanguage`. `useLanguage` throws outside a
  provider.
- **The résumé projection** (`ResumeContent`) is a pure function. It takes the
  current language and the two CVs and renders five tagged sections in a fixed
  order: about, experience, education, projects, skills. It picks the CV and
  the section-title table for the language. It maps each CV list to entries in
  source order. It formats each job's year range with `formatDate`, which shows
  a localised "present" word for a missing date. Each project gets a localised
  link title and, when active, a marker.

Dafny modules:

- `Wrappers` (`wrappers.dfy`): `Option` stands for a nullable value. `Result`
  stands for a call that returns or throws.
- `Seqs` (`seqs.dfy`): `MapSeq`, the model of `Array.prototype.map`.
- `LanguageContext` (`language_context.dfy`): the provider as an immutable
  `Provider` record. It holds the language cell and an optional `Browser`,
  which is local storage as a `map<string, string>` plus the document's `lang`.
  With no browser (pre-rendering) the window is `None`, so every side effect is
  a no-op by construction.
- `ResumeContent` (`resume_content.dfy`): the CV records, the title table,
  and the document tree. The tree is a `Document` made of `Section`s, each
  with a tag, a title and a sequence of `Item`s. The module also holds `Render`
  and the lemmas about it.

The language cell holds a `string`, not the two-valued `Language` type. The
stored value is cast to the language type without any check, so at run time
the cell holds whatever non-empty string storage held. Operations that take a
typed argument (`setLanguage`) take a `Language`.

Points where the code is looser than its own types suggest, which the model
keeps as written:

- The `Language` type (`src/contexts/LanguageContext.tsx:4`) admits only
  `en`/`es`, yet the stored value is cast to it without a check (`:20`). Any
  non-empty stored string becomes the provider's language (see Findings).
- Because of that, the title lookup `sectionTitles[language]`
  (`src/components/ResumeContent.tsx:30`) is a plain JavaScript property
  access on an arbitrary string. For `en`/`es` it finds the table. For a name
  every object inherits (`constructor`, `toString`, `__proto__`, ...) it finds
  a non-table value, and every heading is `undefined` and renders empty. For
  any other string it yields `undefined`, and reading `.about` throws.
- `formatDate` has no guard for an unparseable date. It shows whatever
  `getFullYear()` yields (`"NaN"` for an invalid date). The model leaves that
  branch to the uninterpreted `yearOf` parameter.
- `toggleLanguage` maps `"en"` to `"es"` and every other value to `"en"`. So
  toggling twice is the identity only on the two codes (`ToggleTwice`).

## Model

| member | source | states |
|---|---|---|
| `Seqs.MapSeq` | src/components/ResumeContent.tsx:130-134 | Mapping a list keeps its length and puts `f` of the k-th element at position k, which is the order- and count-preserving behaviour every list in the component relies on |
| `LanguageContext.Parse` | src/contexts/LanguageContext.tsx:4 | A string parses to a language exactly when it is `"en"` or `"es"`, and the parsed language is written back as the same string |
| `LanguageContext.ParseCode` | src/contexts/LanguageContext.tsx:4 | Each language's code parses back to that language |
| `LanguageContext.InitialLanguage` | src/contexts/LanguageContext.tsx:18-24 | With a browser and a non-empty stored string, the initial language is that string unchanged, whatever `initialLanguage` is. With no browser, or with an absent or empty stored value, it is `initialLanguage` if given, else `"en"`. It is never empty |
| `LanguageContext.InitialLanguageIsCodeUnlessStoredGarbage` | src/contexts/LanguageContext.tsx:20-21 | The initial language is a supported code if and only if storage does not hold a non-empty string other than a code |
| `LanguageContext.ChangeEffect` | src/contexts/LanguageContext.tsx:26-31 | With a browser, storage afterwards maps `resume-language` to the language and `lang` equals the language. No other storage key is added, removed or changed. With no browser, nothing is touched |
| `LanguageContext.ChangeEffectIdempotent` | src/contexts/LanguageContext.tsx:26-31 | Running the effect twice with the same language leaves the same browser as running it once |
| `LanguageContext.Mount` | src/contexts/LanguageContext.tsx:17-31 | A freshly mounted provider holds the initial language. Its browser is kept (present exactly when one was given) and is the given one after the change effect, so it is in sync with the cell |
| `LanguageContext.Commit` | src/contexts/LanguageContext.tsx:31-39 | A state update leaves the cell holding the new value and keeps the browser present exactly when it was. Setting an unchanged value changes nothing, so the effect does not re-run. A new value runs the change effect on the same browser, so it writes only the language key and `lang`, and storage and `lang` stay in sync with the cell |
| `LanguageContext.SetLanguage` | src/contexts/LanguageContext.tsx:33-35 | After `setLanguage(l)` the cell is exactly `l` and the browser is kept. On a synced provider with a browser, the persisted entry reads `l` afterwards. A change runs the change effect on the same browser, so no other storage key changes. Setting the current value changes nothing |
| `LanguageContext.SetLanguageIdempotent` | src/contexts/LanguageContext.tsx:33-35 | Setting the same language twice is the same as setting it once |
| `LanguageContext.ToggleLanguage` | src/contexts/LanguageContext.tsx:37-39 | Toggling always yields a supported code different from the previous value: `"es"` from `"en"`, and `"en"` from every other value. It keeps the browser and runs the change effect on it with the new value, so it stays in sync and only the language key changes |
| `LanguageContext.ToggleSwapsLanguages` | src/contexts/LanguageContext.tsx:38 | Toggling maps `en` to `es` and `es` to `en` |
| `LanguageContext.ToggleTwice` | src/contexts/LanguageContext.tsx:37-39 | On a synced provider, two toggles give back the identical provider (cell, storage and `lang`) if and only if the cell holds `"en"` or `"es"`. Any other value ends up as `"es"` |
| `LanguageContext.PersistedPreferenceReadBack` | src/contexts/LanguageContext.tsx:19-28 | Once a synced provider with a browser holds a language, a later mount on that browser starts with it, ignoring `initialLanguage` |
| `LanguageContext.RunKeepsInvariant` | src/contexts/LanguageContext.tsx:26-39 | Over any sequence of `setLanguage`/`toggleLanguage` calls, the session keeps its browser (present exactly when it was at the start) and the browser stays in sync with the cell. Once the cell holds a code, or after any action, it holds a code |
| `LanguageContext.UseLanguage` | src/contexts/LanguageContext.tsx:48-54 | Outside a provider the result is the missing-provider error with the source's message, never a language. Inside one it is that provider's value |
| `LanguageContext.InitialLanguageChecked` | src/contexts/LanguageContext.tsx:20-21 | Corrected initialiser: a stored code is taken as is. A stored non-code falls back as if storage were absent, to `initialLanguage` if given, else `"en"`. The result agrees with the original initialiser if and only if storage does not hold a non-empty non-code |
| `LanguageContext.MountChecked` | src/contexts/LanguageContext.tsx:17-31 | A provider mounted with the corrected initialiser holds exactly the corrected initial language, which is always a supported code, and its browser is in sync |
| `ResumeContent.SectionTitlesComplete` | src/components/ResumeContent.tsx:10-25 | The title table has entries for exactly `"en"` and `"es"`, and each entry titles all five sections |
| `ResumeContent.LookupTitles` | src/components/ResumeContent.tsx:30 | `sectionTitles[language]` finds the language's own table exactly for `"en"`/`"es"`. It yields `undefined` exactly for strings that are neither a code nor an inherited property name |
| `ResumeContent.Render` | src/components/ResumeContent.tsx:27-138 | Rendering throws exactly when the title lookup yields `undefined`: the language is neither `"en"`/`"es"` nor an inherited property name. Otherwise there are exactly five sections tagged about, experience, education, projects, skills in that order, whatever the data. For a code each section is titled from that language's table. For an inherited name every heading is empty |
| `ResumeContent.RenderedTagNames` | src/components/ResumeContent.tsx:41-127 | A successful render carries the `data-section` attributes `about`, `experience`, `education`, `projects`, `skills`, in that order |
| `ResumeContent.RenderIgnoresInactiveCv` | src/components/ResumeContent.tsx:29 | For `"en"` the output does not depend on the Spanish CV. For any other language it does not depend on the English CV |
| `ResumeContent.AboutShowsSummary` | src/components/ResumeContent.tsx:41-44 | The about section holds exactly the active CV's summary: the English one for `en`, the Spanish one for `es` |
| `ResumeContent.ExperienceFollowsWork` | src/components/ResumeContent.tsx:47-73 | The experience section has one entry per job, in order. Each entry shows the job's company, position and summary, and the range `formatDate(startDate) + " - " + formatDate(endDate)` |
| `ResumeContent.EducationFollowsCv` | src/components/ResumeContent.tsx:76-94 | The education entries read back to the CV's education list, same length and order |
| `ResumeContent.ProjectsFollowCv` | src/components/ResumeContent.tsx:97-124 | The project entries read back to the CV's projects, same length and order, with nothing lost. The href is the URL and the link title is localised. The marker is shown if and only if the project is active. Highlights appear in source order |
| `ResumeContent.SkillsFollowCv` | src/components/ResumeContent.tsx:127-136 | The skill entries read back to the CV's skills, same length and order |
| `ResumeContent.FormatDateCases` | src/components/ResumeContent.tsx:32-36 | A null or empty date formats as `"Present"` in English and `"Actual"` otherwise. A non-empty date formats as its year regardless of language |
| `ResumeContent.MissingStartDateShowsPresent` | src/components/ResumeContent.tsx:51-53 | A job with no start and no end date shows `"Present - Present"` in English and `"Actual - Actual"` in Spanish |
| `ResumeContent.ProjectLinkTitleNamesProject` | src/components/ResumeContent.tsx:107 | The link title is `"View project "` (English) or `"Ver el proyecto "` (otherwise) followed by the project's name |
| `ResumeContent.OngoingJobExample` | src/components/ResumeContent.tsx:50-53 | Assuming the year read from `2019-01-01` is `2019`, an ongoing job that started that day renders in English with the range `"2019 - Present"`. That assumption holds at or east of UTC. West of UTC, `getFullYear()` reads the local year of UTC midnight, so the page shows `"2018 - Present"` |
| `ResumeContent.ActiveProjectExample` | src/components/ResumeContent.tsx:100-118 | An active project with highlights `a`, `b` renders with the marker, both highlights in order, and the link title `"View project X"` |
| `ResumeContent.StoredUnknownCodeBreaksRender` | src/contexts/LanguageContext.tsx:20-21 | With `"fr"` in storage, the provider starts with `"fr"` and rendering fails on the missing title table |
| `ResumeContent.StoredInheritedKeyRendersUntitled` | src/contexts/LanguageContext.tsx:20-21 | With `"constructor"` in storage, the provider starts with it and nothing throws. The component renders the Spanish CV with all five headings empty |
| `ResumeContent.CheckedSessionAlwaysRenders` | src/components/ResumeContent.tsx:30 | With the corrected initialiser, rendering succeeds and every section has a heading, after any sequence of user actions, whatever storage held |

## Left out

- The non-null branch of `formatDate` (`src/components/ResumeContent.tsx:34-35`) is not modelled. It parses the string with JavaScript `Date` and reads `getFullYear()`, which depends on the time zone and yields `"NaN"` for an invalid string. The model takes it as an uninterpreted parameter `yearOf: string -> string` and proves nothing about which characters it returns.
- `src/components/ResumeApp.tsx` only wraps two children in a provider and is not modelled. The `Hero` component is not part of this model.
- Real `localStorage` and `document` access is abstracted into the `Browser` record. A storage access that throws (storage disabled) is not modelled.
- Hook scheduling is simplified. The change effect is applied directly after each state change rather than after a later render. Changes to storage made by other tabs between actions are not modelled.
- Markup structure is reduced to the section/item tree. That leaves out the element names, the CSS import and React `key` props.
- `ResumeContent.LookupTitles`: the set of inherited property names is the twelve standard members of `Object.prototype`. Properties that a script or polyfill adds to `Object.prototype` at run time are not modelled.
- `ResumeContent.Render`: the result does not say at which point in the markup the exception is thrown. It only says that the whole render fails.

## Findings

| source | as written | input that shows it | evidently intended | confidence | as-written member | corrected member |
|---|---|---|---|---|---|---|
| src/contexts/LanguageContext.tsx:20-21 | The stored string is cast to `Language` and used whenever it is non-empty. Nothing checks that it is `en` or `es` | Storage holds `resume-language` = `"fr"` and a browser is present. The provider starts with `"fr"`. `sectionTitles["fr"]` is undefined, so reading `titles.about` (src/components/ResumeContent.tsx:42) throws. With `"constructor"` stored instead, nothing throws but every heading renders empty | Accept a stored value only if it is a supported code, and otherwise fall back as if it were absent | medium; not executed | `ResumeContent.StoredUnknownCodeBreaksRender` | `ResumeContent.CheckedSessionAlwaysRenders` |
