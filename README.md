# Rails starter: accounts, current session and view-component class lists

This project models the core of a Rails starter application in Dafny and proves properties of the model.
It covers two groups of code.

The first group is the account store.
- The `User` model normalises email addresses (`strip`, then `downcase`).
- It validates presence, uniqueness, format and password length.
- It derives `initials` from the address.
- It destroys a user's sessions together with the user.
- Through `has_secure_password` it authenticates by address and password.
- `UserStore` is a class whose `users` and `sessions` maps are the two tables.
- `Current` is the request-scoped slot that holds at most one session.
- `UsersController` implements registration and profile editing over the store, behind the `user_params` whitelist.

The second group is the string builders of the view components. Each one computes a CSS class list or a label:
- the shared `ButtonStyling` concern and the two button components, which delete `:class` from their stored options hash;
- the alert box, with its five colour schemes;
- the input, form-container, link and avatar components.

Ruby values that reach these components are modelled by `RubyValues.Value`. It follows Ruby's rules for truthiness, `||` and `to_s`. A symbol and a string with the same text are different values. A keyword argument with a default is an `Option<Value>`: `None` means the argument was omitted. The alert's `messages` is the exception: it is an `Option<seq<Value>>`, and its `None` stands both for an omitted argument and for an explicit nil, which the component treats alike.

Three foreign primitives are parameters of the model rather than code of it:
- the password hash, `UserStore.digestOf`, which is assumed injective and nothing more;
- `URI::MailTo::EMAIL_REGEXP`, `UserStore.emailFormat`;
- the i18n lookup `t`, a `Translation.Translations` value, and `String#humanize`, a function parameter.

`Text.HasClass(s, c)` says that `c` occurs in the space-separated list `s` with a space or an end of `s` on either side. For a class name without spaces this is what a `.c` CSS selector matches. When `c` holds several classes, as caller-supplied extras may, each of them is present.

Where the code and its documentation could be read differently, the model follows the code:
- `initials` is "" (not "?") for an address that starts with "@" and contains another character. `split("@").first` is then the empty string, and the empty string is truthy in Ruby.
- `has_list?` is `messages.any?`, so a list whose elements are all nil or false is not shown as a list.
- With an unknown button variant, `[base, nil, extras].join(" ")` keeps the empty slot. Non-empty extras therefore follow the base after two spaces.

## Model

| member | source | states |
|---|---|---|
| UserModel.Normalize | app/models/user.rb:5 | a normalised address has no surrounding whitespace, and it is empty exactly when the input was all whitespace |
| UserModel.NormalizeYieldsNormal | app/models/user.rb:5 | normalising always gives the normal form (trimmed, no capital letter), and the addresses it leaves unchanged are exactly those already in normal form |
| UserModel.NormalizeIdempotent | app/models/user.rb:5 | normalising twice gives the same result as normalising once |
| UserModel.NormalizeIgnoresCaseAndSpace | app/models/user.rb:5 | padding an address with any whitespace on the left and on the right, and changing its case, does not change its normal form |
| UserModel.StripPadded | app/models/user.rb:5 | `strip` removes exactly the whitespace added on either side, whatever its length on each side |
| UserModel.DowncaseStrip | app/models/user.rb:5 | lowercasing and stripping commute |
| UserModel.BeforeAt | app/models/user.rb:17 | the result is a prefix of the address without "@", followed in the address by "@" unless it is the whole address |
| UserModel.FirstField | app/models/user.rb:17 | `split("@").first` is nil exactly when the address holds nothing but "@"; otherwise it is a prefix without "@", followed in the address by "@" unless it is the whole address |
| UserModel.Initials | app/models/user.rb:16-19 | "?" for a nil address or one made only of "@"; the upper-cased first character when the address starts with something other than "@"; "" when it starts with "@" and contains anything else; never longer than one character |
| UserModel.Assign | app/models/user.rb:2-5 | mass assignment never changes the `admin` flag |
| UserModel.AssignEmail | app/models/user.rb:5 | assigning the address changes only the address: an omitted one is kept, nil stays nil, a string is normalised |
| UserModel.AssignPassword | app/models/user.rb:2 | the `has_secure_password` setter changes only the password and its digest: nil clears both, "" or an omitted password changes nothing, any other password is stored with its digest |
| UserModel.AssignConfirmation | app/models/user.rb:2 | assigning the confirmation changes only the confirmation |
| UserModel.AssignedEmail | app/models/user.rb:5 | an omitted address is kept, a nil one stays nil (`normalizes` skips nil), and a given one is normalised |
| UserModel.NullPasswordClearsDigest | app/models/user.rb:2 | assigning a nil password clears the stored digest, so the record is reported as having no password |
| UserModel.NullEmailIsBlank | app/models/user.rb:5-7 | a nil address is left nil and reported as blank |
| UserModel.Errors | app/models/user.rb:7-8 | the error set is empty exactly when the record satisfies every validation of the model and of `has_secure_password`, with presence and the confirmation's `allow_blank` judged by ActiveSupport's `blank?` (Unicode White_Space, not NUL) |
| UserModel.ErrorsReported | app/models/user.rb:7-8 | each validation message is reported exactly when its rule fails, blankness being ActiveSupport's `blank?` |
| UserModel.ConfirmationCheckedUnlessBlank | app/models/user.rb:2 | a new password that is not `blank?` (NUL characters included) with a different confirmation is reported as not matching |
| UserModel.NormalizeKeepsBlank | app/models/user.rb:5-7 | normalising a `blank?` address leaves it `blank?`, so the presence check sees the same blankness before and after `normalizes` |
| UserModel.NoBreakSpaceAddressIsBlank | app/models/user.rb:5-7 | an address of one no-break space is kept by `strip` and still reported as blank |
| UserModel.NewRecordNeedsEmailAndPassword | app/models/user.rb:7 | a new record with a blank address or without a password is invalid |
| UserModel.ShortPasswordRejected | app/models/user.rb:8 | a new record with a password shorter than 8 characters is reported as too short |
| UserModel.ExistingRecordKeepsPassword | app/models/user.rb:8 | on a stored record the length and presence checks pass when no new password is supplied |
| UserModel.DuplicateEmailRejected | app/models/user.rb:5-7 | an address whose normal form is already stored is reported as taken |
| UserModel.NormalizedEmailsDistinct | app/models/user.rb:5-7 | stored addresses stay distinct when normalised again |
| UserModel.SaveKeepsInvariant | app/models/user.rb:7 | saving a valid record keeps the stored addresses unique, normalised and well formed |
| UserModel.AddSessionCount | app/models/user.rb:3 | a new session raises its owner's session count by one and leaves every other count unchanged |
| UserModel.WithoutOwner | app/models/user.rb:3 | removing a user's sessions leaves none of them, and keeps every other session unchanged |
| UserModel.WithoutOwnerKeepsOthers | app/models/user.rb:3 | destroying one user's sessions keeps every other user's session count |
| UserModel.UserStore.constructor | app/models/user.rb:1-3 | a new store is empty and valid |
| UserModel.UserStore.Create | app/models/user.rb:2-8 | on success, exactly one row is added under a fresh id, holding the normalised address, the password digest and `admin` false; on failure the errors are returned and nothing changes; the store invariant is kept |
| UserModel.NewRecordAccepted | app/models/user.rb:2-8 | a new record that passes validation was given an address and a password of at least 8 characters, and its row has a normalised, present, well-formed address that no stored user holds |
| UserModel.InsertKeepsInvariant | app/models/user.rb:7 | inserting such a row under a fresh id keeps the addresses unique and well formed and every session's owner stored |
| UserModel.UserStore.Insert | app/models/user.rb:7 | the row is stored under the next free id, the counter advances, nothing else changes, and the store invariant is kept |
| UserModel.UserStore.Update | app/models/user.rb:5-8 | on success only row `id` changes, its address is the normalised new one (or the old one) and its `admin` flag is kept; on failure nothing changes |
| UserModel.UserStore.Destroy | app/models/user.rb:3 | the user's row and every session it owned are removed, and every other session is kept |
| UserModel.UserStore.AddSession | app/models/user.rb:3 | a session for a stored user is added under a fresh id and raises that user's count by one; for an unknown user nothing changes |
| UserModel.UserStore.Authenticate | app/models/user.rb:2 | a user is returned exactly when the password is non-empty and a stored user has the normalised address and that password's digest, and that user is the one returned |
| UserModel.OnlyRegisteredPasswordMatches | app/models/user.rb:2 | with unique stored addresses and an injective hash, signing in with a user's address succeeds exactly for the password that user registered with |
| CurrentAttributes.Current.constructor | app/models/current.rb:3 | a request starts with no session |
| CurrentAttributes.Current.SetSession | app/models/current.rb:3 | the assigned session replaces the previous one |
| CurrentAttributes.Current.Reset | app/models/current.rb:3 | clearing the attributes leaves no session |
| CurrentAttributes.Current.User | app/models/current.rb:4 | nil without a session; otherwise the session's owner when that owner is stored, and nil when it is not |
| CurrentAttributes.LiveSessionGivesOwner | app/models/current.rb:3-4 | in a valid store, a live session in the slot yields its owner, who is stored |
| UsersController.RequiresAuthentication | app/controllers/users_controller.rb:4 | `show`, `edit` and `update` require a signed-in user, and only they do; an action skips authentication exactly when it is `new` or `create` |
| UsersController.Permitted | app/controllers/users_controller.rb:41 | a key present with a string is taken unchanged, one present with nil is kept as nil, and a missing key or a nested hash is dropped |
| UsersController.UserParamsOf | app/controllers/users_controller.rb:40-42 | a missing or `blank?` `user` key is a 400 error; a non-blank string is a 500 error; a non-blank nested hash succeeds, taking exactly the three whitelisted fields as `Permitted` gives them |
| UsersController.NullParams | app/controllers/users_controller.rb:40-42 | a `user` of nil is missing (400); a nil password inside the hash passes the whitelist as nil |
| UsersController.ScalarUserParamByBlank | app/controllers/users_controller.rb:40-42 | a `user` value of NUL is present, so it reaches `permit` and fails (500); one of a no-break space is blank (400) |
| UsersController.UnpermittedKeysIgnored | app/controllers/users_controller.rb:40-42 | adding a key outside the whitelist, `admin` among them, does not change the permitted parameters |
| UsersController.CurrentRecord | app/controllers/users_controller.rb:20-26 | the record read is the current user's stored row, and there is none without a current user |
| UsersController.NewAction | app/controllers/users_controller.rb:6-8 | `new` yields an empty record with `admin` false |
| UsersController.CreateAction | app/controllers/users_controller.rb:10-18 | valid parameters add exactly one non-admin user with the normalised address and redirect to sign-in with the success notice; invalid ones answer 422 and leave the users unchanged; sessions are never touched |
| UsersController.ShowAction | app/controllers/users_controller.rb:20-22 | `show` reads only the current user's record |
| UsersController.EditAction | app/controllers/users_controller.rb:24-26 | `edit` reads only the current user's record |
| UsersController.UpdateAction | app/controllers/users_controller.rb:28-36 | only the current user's record can change; a valid update stores the normalised address, keeps `admin` and redirects to the profile; an invalid one answers 422 and changes nothing; without a current user it fails with 500 |
| ButtonStyling.VariantClasses | app/components/concerns/button_styling.rb:7-10 | only the symbols `:primary` and `:secondary` have classes, and those are the constant strings; every other value gives nil |
| ButtonStyling.ClassList | app/components/concerns/button_styling.rb:18-20 | join-and-strip equals the base followed by the right-stripped remainder, and the result has no outer whitespace |
| ButtonStyling.JoinThree | app/components/concerns/button_styling.rb:19 | joining three slots puts exactly one space between neighbours |
| ButtonStyling.BuildButtonClasses | app/components/concerns/button_styling.rb:14-20 | the class list always begins with the base classes and has no outer whitespace |
| ButtonStyling.BuildFlexButtonClasses | app/components/concerns/button_styling.rb:22-25 | the flex class list begins with "inline-flex items-center " and the base classes, and has no outer whitespace |
| ButtonStyling.ClassListPrefixed | app/components/concerns/button_styling.rb:22-25 | a prefix of the base becomes a prefix of the whole class list |
| ButtonStyling.FlexIsPrefixedPlain | app/components/concerns/button_styling.rb:22-25 | the flex class list is the plain class list with "inline-flex items-center " in front |
| ButtonStyling.ClassListBaseOnly | app/components/concerns/button_styling.rb:19 | empty variant and extras leave only the base |
| ButtonStyling.UnknownVariantGivesBase | app/components/concerns/button_styling.rb:7-19 | an unknown variant with empty extras gives exactly the base classes |
| ButtonStyling.StripAfterSolid | app/components/concerns/button_styling.rb:19 | trailing whitespace after a solid variant never reaches back into it |
| ButtonStyling.ClassListNoExtras | app/components/concerns/button_styling.rb:19 | with empty extras, the list is the base, one space and the variant, with no trailing whitespace |
| ButtonStyling.KnownVariantWithoutExtras | app/components/concerns/button_styling.rb:7-19 | a known variant with empty extras gives the base, one space and the variant's classes |
| ButtonStyling.ClassListExtrasLast | app/components/concerns/button_styling.rb:19 | solid extras are the final component, after one space |
| ButtonStyling.ExtrasComeLast | app/components/concerns/button_styling.rb:18-19 | extras without outer whitespace come last: base, space, variant, space, extras |
| ButtonStyling.ClassListKeepsVariantClass | app/components/concerns/button_styling.rb:19 | each class of the variant is a class of the list, at the place one space after the base |
| ButtonStyling.ClassListKeepsBaseClass | app/components/concerns/button_styling.rb:19 | each class of the base is a class of the list, at the same place |
| ButtonStyling.PrimaryHasEmerald | app/components/concerns/button_styling.rb:8 | `:primary` buttons carry "bg-emerald-600", whatever the extras |
| ButtonStyling.SecondaryHasWhite | app/components/concerns/button_styling.rb:9 | `:secondary` buttons carry "bg-white", whatever the extras |
| ButtonStyling.BaseClassPresent | app/components/concerns/button_styling.rb:14-19 | every button carries "rounded-md", whatever its variant |
| ButtonStyling.ClassListKeepsExtras | app/components/concerns/button_styling.rb:19 | solid extras are a whole class at the end of the list |
| ButtonStyling.ExtrasPresent | app/components/concerns/button_styling.rb:18-19 | extras without outer whitespace are present as a class |
| AuthButton.ExtraClasses | app/components/auth/button_component.rb:18 | the extras are the value under `:class` when it is truthy, and "" otherwise |
| AuthButton.ButtonComponent.constructor | app/components/auth/button_component.rb:6-11 | `type` defaults to `:submit` and `variant` to `:primary`; the other keywords become the options |
| AuthButton.ButtonComponent.ButtonClasses | app/components/auth/button_component.rb:17-20 | `:class` is removed from the options and every other key is kept; the result is the class list built from the removed value and begins with the base classes |
| AuthButton.SecondCallHasNoExtras | app/components/auth/button_component.rb:17-20 | after `:class` is gone, the class list has no extras: the base and the variant, or the base alone |
| AuthButton.CustomClassApplied | app/components/auth/button_component.rb:17-20 | `class: "w-full"` is present in the class list of a primary button |
| AuthLinkButton.LinkButtonComponent.constructor | app/components/auth/link_button_component.rb:7-12 | `variant` defaults to `:primary`; the other keywords become the options |
| AuthLinkButton.LinkButtonComponent.ButtonClasses | app/components/auth/link_button_component.rb:18-21 | `:class` is removed from the options and every other key is kept; the result is the flex class list, which is the plain one with "inline-flex items-center " in front |
| AuthLinkButton.FlexBaseLeads | app/components/concerns/button_styling.rb:23 | the flex base begins with the whole classes "inline-flex" and "items-center" |
| AuthLinkButton.FlexClassesLead | app/components/concerns/button_styling.rb:22-25 | every link button carries "inline-flex" and "items-center" |
| Alert.AlertComponent.HasList | app/components/alert_component.rb:15-17 | the list is shown exactly when `messages` is non-nil and some element is truthy |
| Alert.AlertComponent.AlertClasses | app/components/alert_component.rb:19-34 | every type, known or not, begins with "rounded-md p-4 " |
| Alert.AlertComponent.IconClasses | app/components/alert_component.rb:36-49 | every type begins with "size-5 " |
| Alert.AlertComponent.TextClasses | app/components/alert_component.rb:51-64 | every type begins with "text-sm font-medium " |
| Alert.DismissClasses | app/components/alert_component.rb:69 | a dismiss-button list begins with "inline-flex rounded-md ", and its background class is a whole class |
| Alert.AlertComponent.DismissButtonClasses | app/components/alert_component.rb:66-79 | every type, known or not, begins with "inline-flex rounded-md " |
| Alert.AlertComponent.IconShape | app/components/alert_component.rb:81-109 | the generic circle is drawn exactly for unknown types, and the crossed circle exactly for `:error` and `:alert` |
| Alert.AlertComponent.IconSvg | app/components/alert_component.rb:81-109 | the markup opens the svg element with `icon_classes` as its class attribute, followed by the path of the chosen shape |
| Alert.NewAlert | app/components/alert_component.rb:4-9 | `type` defaults to `:info` and `dismissible` to false; `message`, `messages` and any given `type` or `dismissible` are kept |
| Alert.AnyTruthy | app/components/alert_component.rb:16 | `any?` holds exactly when some element is truthy |
| Alert.HasListOfStrings | app/components/alert_component.rb:15-17 | for a list of strings, `has_list?` holds exactly when the list is non-nil and non-empty |
| Alert.FalsyListIsNotShown | app/components/alert_component.rb:15-17 | any list whose elements are all nil or false is not shown as a list |
| Alert.NilFalseListIsNotShown | app/components/alert_component.rb:15-17 | `[nil, false]`, a non-empty list, is not shown as a list |
| Alert.AlertAliasesError | app/components/alert_component.rb:19-109 | `:alert` and `:error` give identical output from every class helper and from `icon_svg` |
| Alert.SuccessIsGreen | app/components/alert_component.rb:19-109 | `:success` gives green classes in all four helpers and the check-circle icon |
| Alert.ErrorIsRed | app/components/alert_component.rb:19-109 | `:error` and `:alert` give red classes in all four helpers and the x-circle icon |
| Alert.WarningIsYellow | app/components/alert_component.rb:19-109 | `:warning` gives yellow classes in all four helpers and the triangle icon |
| Alert.InfoIsBlue | app/components/alert_component.rb:19-109 | `:info` gives blue classes in all four helpers and the information icon |
| Alert.UnknownKindIsGray | app/components/alert_component.rb:19-109 | any other type falls through to gray in all four helpers and the plain circle icon |
| Alert.UntilQuote | app/components/alert_component.rb:85 | the text read back from an attribute is a prefix without a double quote |
| Alert.UntilQuoteStops | app/components/alert_component.rb:85 | reading an attribute stops at the first closing quote |
| Alert.IconClassesUnquoted | app/components/alert_component.rb:36-49 | no icon class list contains a double quote |
| Alert.IconSvgCarriesIconClasses | app/components/alert_component.rb:81-109 | the class attribute read back from `icon_svg` is exactly `icon_classes` of the same type |
| AuthInput.InputComponent.Label | app/components/auth/input_component.rb:15-17 | the `:label` option as given, or nil when it is absent |
| AuthInput.InputComponent.Error | app/components/auth/input_component.rb:19-21 | the `:error` option as given, or nil when it is absent |
| AuthInput.InputComponent.Autocomplete | app/components/auth/input_component.rb:31-33 | the `:autocomplete` option as given, or nil when it is absent |
| AuthInput.InputComponent.Placeholder | app/components/auth/input_component.rb:35-37 | the `:placeholder` option as given, or nil when it is absent |
| AuthInput.InputComponent.ForgotPasswordLink | app/components/auth/input_component.rb:39-41 | the `:forgot_password_link` option as given, or nil when it is absent |
| AuthInput.InputComponent.Type | app/components/auth/input_component.rb:23-25 | the type is the given truthy value, otherwise `:text`; never nil or false |
| AuthInput.InputComponent.Required | app/components/auth/input_component.rb:27-29 | the flag is the given truthy value, otherwise false; never nil |
| AuthInput.InputComponent.InputClasses | app/components/auth/input_component.rb:43-52 | without an error the list is exactly the base and dark classes; with an error it is that list, one space and the whole red outline list, so the error-free list is a prefix and "outline-red-300" is present |
| AuthInput.InputComponent.LabelText | app/components/auth/input_component.rb:58-60 | an explicit label wins; otherwise the translation of the label key, with the humanized field name as the default |
| AuthInput.InputComponent.FieldId | app/components/auth/input_component.rb:54-56 | the id is the field name, "_", then digits that parse back to the object id |
| AuthInput.ExplicitLabelWins | app/components/auth/input_component.rb:58-60 | an explicit label is shown whatever the translations and the humanizer |
| AuthInput.HumanizedLabelFallback | app/components/auth/input_component.rb:58-60 | without a label or a translation, the humanized field name is shown |
| AuthInput.DigitRun | app/components/auth/input_component.rb:55 | the run of trailing digits is no longer than the string |
| AuthInput.DigitRunAfterSeparator | app/components/auth/input_component.rb:55 | after a non-digit separator, the trailing digit run is exactly the digit suffix |
| AuthInput.DigitSuffixUnique | app/components/auth/input_component.rb:55 | a name joined to digits by a non-digit separator splits back uniquely |
| AuthInput.FieldIdsDistinct | app/components/auth/input_component.rb:54-56 | equal field ids mean the same field name and the same object id |
| AuthInput.FieldIdEndsWithObjectId | app/components/auth/input_component.rb:54-56 | the field id ends with "_" and the decimal object id, which parses back to the object id |
| AuthFormContainer.FormContainerComponent.TitleText | app/components/auth/form_container_component.rb:15-17 | an explicit title wins; else the translation of the title key; nil exactly when neither is given |
| AuthFormContainer.FormContainerComponent.SubtitleText | app/components/auth/form_container_component.rb:19-21 | the same precedence over the subtitle and the subtitle key |
| AuthFormContainer.NewFormContainer | app/components/auth/form_container_component.rb:4-9 | the title key is stored; the subtitle key, title and subtitle default to nil, and a given value of each is stored |
| AuthFormContainer.KeyOnlyHeading | app/components/auth/form_container_component.rb:4-21 | with only a title key, the heading is its translation and there is no subtitle |
| AuthFormContainer.ExplicitTitleWins | app/components/auth/form_container_component.rb:15-17 | an explicit title is shown whatever the translations |
| AuthLink.LinkComponent.WrapperClasses | app/components/auth/link_component.rb:12-16 | exactly "text-sm text-center" when `centered` is truthy, and exactly "text-sm" otherwise |
| AuthLink.LinkComponent.LinkClasses | app/components/auth/link_component.rb:18-20 | exactly the constant `LinkStyle`, the literal class list, carrying "font-semibold" and "text-emerald-600" |
| AuthLink.LinkClassesConstant | app/components/auth/link_component.rb:18-20 | any two links have the same link classes, whatever their text, url and centring |
| AuthLink.NewLink | app/components/auth/link_component.rb:2-6 | `centered` defaults to true |
| AuthLink.CenteredIff | app/components/auth/link_component.rb:12-16 | the wrapper carries "text-center" exactly when the link is centred, and always carries "text-sm" |
| AuthLink.CenteredClasses | app/components/auth/link_component.rb:12-16 | the centred wrapper carries both "text-sm" and "text-center" |
| AuthLink.NotCenteredClasses | app/components/auth/link_component.rb:12-16 | the plain wrapper does not carry "text-center" |
| AuthLink.DefaultLinkIsCentred | app/components/auth/link_component.rb:2-16 | a link built with the default is centred |
| Avatar.AvatarComponent.SizeClasses | app/components/avatar_component.rb:12-14 | the list is exactly "size-", the rendered size and " rounded-full", so it carries both classes |
| Avatar.AvatarComponent.TextClasses | app/components/avatar_component.rb:16-18 | the list is exactly "text-", the text size and " font-medium text-white hidden", so it carries all four classes |
| Avatar.TextClassesShape | app/components/avatar_component.rb:17 | each word of the text class list is a whole class |
| Avatar.NewAvatar | app/components/avatar_component.rb:2-6 | the user is stored; `size` defaults to 8 and `text_size` to "sm", and a given value of each is stored |
| Avatar.DefaultAvatarClasses | app/components/avatar_component.rb:2-18 | a default avatar carries "size-8" and "text-sm" |
| Avatar.CustomAvatarClasses | app/components/avatar_component.rb:12-18 | `size: 20, text_size: "2xl"` gives "size-20" and "text-2xl" |
| Avatar.UserIrrelevant | app/components/avatar_component.rb:12-18 | neither class list depends on the user |
| Avatar.SizeClassesInjective | app/components/avatar_component.rb:12-14 | different integer sizes give different size class lists |

## Left out

- Password hashing (bcrypt in `has_secure_password`) is a foreign cryptographic library. The store takes its digest function as a parameter, assumed injective.
- `has_secure_password`'s 72-byte maximum is not modelled. Neither is the derived `password_confirmation` check for anything other than a given, non-blank password.
- `URI::MailTo::EMAIL_REGEXP` is a parameter (`emailFormat`), not a regular expression.
- `find_by_password_reset_token!` is left out. It relies on Rails' signed-message verifier, which is cryptographic, time-dependent and not part of this model.
- `avatar_url` is left out: it depends on MD5.
- The sessions and passwords controllers, the authentication concern and cookie handling are not part of this model. `require_authentication` appears only as the set of actions that skip it.
- Persistence is a single-threaded map store. Database transactions, concurrent requests and the unique index that backs the uniqueness validation are left out.
- Rendering is left out: templates, HTML escaping, the SVG path data (a parameter of `IconSvg`) and the locale files. The i18n lookup and `humanize` are abstract.
- `Text`'s case mapping is ASCII only; Ruby's Unicode `downcase` and `upcase` are not modelled. `Text.Strip` removes ASCII whitespace and NUL, as Ruby's `strip` does. ActiveSupport's `blank?` is a different set, `Text.IsBlankChar`: the Unicode White_Space characters, without NUL.
- Request parameters are strings, nil (a JSON `null`) or nested hashes. Array values (`user[]=…`, or `user[email_address][]=…`, which `permit` drops) are not modelled. Neither are the other JSON scalars, numbers and booleans, that a JSON body can carry.
- Validation errors are a set. The order Rails reports them in is not kept.
- Option values are scalars (nil, booleans, strings, symbols, integers). Arrays or hashes passed through `**options`, and `messages` values other than nil or an array, are not modelled.
- The form builder passed to `Auth::InputComponent` is only handed to the template, so it is not kept. `object_id` is a field of the component.
- Alert.AlertComponent.DismissButtonClasses: the full class strings are modelled, but its contract states only the shared lead. The colour lemmas state each type's background class.
- app/javascript/controllers/navbar_controller.js is DOM and event handling, so it is left out.
- app/components/user_page_component.rb holds no logic, so it is left out.
- CI configuration, seeds and browser tests are tooling, so they are left out.
