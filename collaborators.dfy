/**
 * The libraries the pipeline consults, as a record of functions so that every
 * result about the pipeline holds for any implementation of them.
 */
module Collaborators {
  import opened Basics

  /** What `parsePhoneNumber(s, 'BR')` yields and the pipeline reads. */
  datatype PhoneNumber = PhoneNumber(
    number: string,           // `.number`: the E.164 form, e.g. "+5511987654321"
    country: Option<string>,  // `.country`: ISO 3166 code, or undefined
    national: string,         // `.formatNational()`
    international: string)    // `.formatInternational()`

  datatype Libraries = Libraries(
    isCpf: string -> bool,              // validateBr.cpf (js-brasil)
    isCnpj: string -> bool,             // validateBr.cnpj (js-brasil)
    isUuid: string -> bool,             // uuid-validate
    isPhone: string -> bool,            // isValidPhoneNumber(s, 'BR') (libphonenumber-js/mobile)
    isEmail: string -> bool,            // email-validator's validate
    parsePhone: string -> PhoneNumber,  // parsePhoneNumber(s, 'BR')
    maskCpf: string -> string,          // maskBr.cpf (js-brasil)
    maskCnpj: string -> string)         // maskBr.cnpj (js-brasil)
}
